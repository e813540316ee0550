/**
 * The code-context panel: the fault line with up to three lines on either
 * side, numbered, the fault line marked with an arrow, a start-of-file marker
 * when the window reaches line 1, and either the number of lines left below
 * the window or an end-of-file marker.
 */
module CodeContext {
  import opened Text
  import opened PyModel

  /** Lines shown on each side of the fault line */
  const Radius := 3

  const Title := "\n------ Code Context ------"
  const StartOfFile := "   -- start of file --"
  const EndOfFile := "  --- End of file ---"
  const Arrow := "\U{2192} "

  /** The number of lines `linecache` reads one after another from line 1 */
  function LineCount(src: seq<string>): (n: nat)
    ensures n <= |src|
    ensures forall i :: 1 <= i <= n ==> Getline(src, i) != ""
    ensures Getline(src, n + 1) == ""
  {
    if src == [] || src[0] == "" then 0
    else
      var m := LineCount(src[1..]);
      assert forall i :: 2 <= i <= m + 2 ==> Getline(src, i) == Getline(src[1..], i - 1);
      1 + m
  }

  function WindowStart(lineno: int): int {
    if lineno - Radius < 1 then 1 else lineno - Radius
  }

  function WindowEnd(lineno: int, count: nat): int {
    if count < lineno + Radius then count else lineno + Radius
  }

  /** Line `i` as the panel shows it: arrow or two spaces, number, colon, text without trailing whitespace */
  function ContextLine(src: seq<string>, lineno: int, i: nat): string {
    (if i == lineno then Arrow else "  ") + NatToString(i) + ": " + RStrip(Getline(src, i), PyWhitespace)
  }

  /** The numbers of the lines printed for line numbers `start` to `last`: the readable ones */
  function WindowNumbers(src: seq<string>, start: int, last: int): (ns: seq<int>)
    requires start >= 1
    ensures forall k :: 0 <= k < |ns| ==> start <= ns[k] <= last
    decreases last - start + 1
  {
    if last < start then []
    else WindowNumbers(src, start, last - 1) + (if Getline(src, last) != "" then [last] else [])
  }

  /** The printed form of each numbered line */
  function RenderLines(src: seq<string>, lineno: int, ns: seq<int>): (lines: seq<string>)
    requires forall k :: 0 <= k < |ns| ==> ns[k] >= 1
    ensures |lines| == |ns|
  {
    seq(|ns|, k requires 0 <= k < |ns| => ContextLine(src, lineno, ns[k]))
  }

  /** The closing line: lines left below the window, or the end-of-file marker */
  function Trailer(count: nat, end: int): string {
    if end < count then "   ... (" + NatToString(count - end) + " more lines below)" else EndOfFile
  }

  /** What `_print_code_context` prints */
  function CodeContextPanel(src: seq<string>, lineno: int): seq<string> {
    var count := LineCount(src);
    var start := WindowStart(lineno);
    var end := WindowEnd(lineno, count);
    [Title]
      + (if start <= 1 then [StartOfFile] else [])
      + RenderLines(src, lineno, WindowNumbers(src, start, end))
      + [Trailer(count, end)]
  }

  /** The counting loop of `_print_code_context`: reads lines until `linecache` returns "" */
  method CountLines(src: seq<string>) returns (lineCount: nat)
    ensures lineCount == LineCount(src)
  {
    lineCount := 0;
    while Getline(src, lineCount + 1) != ""
      invariant lineCount <= LineCount(src)
      decreases |src| - lineCount
    {
      lineCount := lineCount + 1;
    }
  }

  /** The loop of `_print_code_context` over line numbers `startLine` to `endLine`, printing the readable ones */
  method PrintWindow(src: seq<string>, lineno: int, startLine: int, endLine: int) returns (out: seq<string>)
    requires startLine >= 1
    ensures out == RenderLines(src, lineno, WindowNumbers(src, startLine, endLine))
  {
    out := [];
    var i := startLine;
    while i <= endLine
      invariant startLine <= i <= if endLine < startLine then startLine else endLine + 1
      invariant out == RenderLines(src, lineno, WindowNumbers(src, startLine, i - 1))
      decreases endLine - i
    {
      RenderStep(src, lineno, startLine, i);
      if Getline(src, i) != "" {
        out := out + [ContextLine(src, lineno, i)];
      }
      assert out == RenderLines(src, lineno, WindowNumbers(src, startLine, i));
      i := i + 1;
    }
  }

  /** `_print_code_context`: counts the file's lines, then prints the window around `lineno` */
  method PrintCodeContext(src: seq<string>, lineno: int) returns (out: seq<string>)
    ensures out == CodeContextPanel(src, lineno)
  {
    var lineCount := CountLines(src);
    var startLine := WindowStart(lineno);
    var endLine := WindowEnd(lineno, lineCount);
    out := [Title];
    if startLine <= 1 {
      out := out + [StartOfFile];
    }
    var window := PrintWindow(src, lineno, startLine, endLine);
    out := out + window + [Trailer(lineCount, endLine)];
  }

  /** Extending the window by line `i` appends its printed form when `linecache` returns text for it */
  lemma RenderStep(src: seq<string>, lineno: int, start: int, i: int)
    requires 1 <= start <= i
    ensures RenderLines(src, lineno, WindowNumbers(src, start, i))
         == RenderLines(src, lineno, WindowNumbers(src, start, i - 1))
            + (if Getline(src, i) != "" then [ContextLine(src, lineno, i)] else [])
  {
    var before := WindowNumbers(src, start, i - 1);
    if Getline(src, i) != "" {
      RenderAppend(src, lineno, before, i);
    }
  }

  /** Rendering one more line number appends that line's printed form */
  lemma RenderAppend(src: seq<string>, lineno: int, ns: seq<int>, i: int)
    requires forall k :: 0 <= k < |ns| ==> ns[k] >= 1
    requires i >= 1
    ensures RenderLines(src, lineno, ns + [i]) == RenderLines(src, lineno, ns) + [ContextLine(src, lineno, i)]
  {
    var ms := ns + [i];
    var a := RenderLines(src, lineno, ms);
    var b := RenderLines(src, lineno, ns) + [ContextLine(src, lineno, i)];
    forall k | 0 <= k < |a| ensures a[k] == b[k] {
      if k < |ns| {
        assert ms[k] == ns[k];
      }
    }
  }

  /** The line numbers `lo` to `hi`, in order */
  function Range(lo: int, hi: int): (r: seq<int>)
    ensures |r| == (if hi < lo then 0 else hi - lo + 1)
    ensures forall k :: 0 <= k < |r| ==> r[k] == lo + k
    decreases hi - lo + 1
  {
    if hi < lo then [] else Range(lo, hi - 1) + [hi]
  }

  /** Inside the readable part of the file the window holds every line number from `start` to `last`, in order */
  lemma {:induction false} WindowExact(src: seq<string>, start: int, last: int)
    requires 1 <= start && last <= LineCount(src)
    ensures WindowNumbers(src, start, last) == Range(start, last)
    decreases last - start + 1
  {
    if start <= last {
      WindowExact(src, start, last - 1);
    }
  }

  /** Only the fault line carries the arrow */
  lemma ArrowOnlyOnFaultLine(src: seq<string>, lineno: int, i: nat)
    ensures StartsWith(ContextLine(src, lineno, i), Arrow) <==> i == lineno
  {
    var l := ContextLine(src, lineno, i);
    if i != lineno {
      assert l[0] == ' ';
    }
  }

  /** The window runs from three lines above the fault line (at least line 1) to three below it (at most the last readable line) */
  lemma WindowBounds(lineno: int, count: nat)
    ensures WindowStart(lineno) >= 1 && WindowStart(lineno) >= lineno - Radius
    ensures WindowStart(lineno) == 1 || WindowStart(lineno) == lineno - Radius
    ensures WindowEnd(lineno, count) <= count && WindowEnd(lineno, count) <= lineno + Radius
    ensures WindowEnd(lineno, count) == count || WindowEnd(lineno, count) == lineno + Radius
  {
  }

  /**
   * The panel is the title, the start-of-file marker exactly when the window
   * starts at line 1, then every line from `start` to `end` in order, each
   * marked and numbered, then one trailer.
   */
  lemma CodeContextBody(src: seq<string>, lineno: int)
    ensures var count := LineCount(src);
            var start := WindowStart(lineno);
            var end := WindowEnd(lineno, count);
            var out := CodeContextPanel(src, lineno);
            var head := if start <= 1 then 2 else 1;
            var width := if end < start then 0 else end - start + 1;
            && |out| == head + width + 1
            && out[0] == Title
            && (start <= 1 ==> out[1] == StartOfFile)
            && out[head..|out| - 1] == RenderLines(src, lineno, Range(start, end))
  {
    var count := LineCount(src);
    WindowExact(src, WindowStart(lineno), WindowEnd(lineno, count));
  }

  /** The trailer is "... (k more lines below)" with k = count - end when lines are left below the window, otherwise the end-of-file marker */
  lemma CodeContextTrailer(src: seq<string>, lineno: int)
    ensures var count := LineCount(src);
            var end := WindowEnd(lineno, count);
            var out := CodeContextPanel(src, lineno);
            && |out| >= 2
            && (end < count ==> out[|out| - 1] == "   ... (" + NatToString(count - end) + " more lines below)")
            && (end >= count ==> out[|out| - 1] == EndOfFile)
  {
  }

  /** A printed source line has a digit where the markers have a space or a dash */
  lemma ContextLineDigit(src: seq<string>, lineno: int, i: nat)
    ensures |ContextLine(src, lineno, i)| > 2 && IsDigit(ContextLine(src, lineno, i)[2])
  {
    var digits := NatToString(i);
    var prefix := if i == lineno then Arrow else "  ";
    assert ContextLine(src, lineno, i) == prefix + (digits + ": " + RStrip(Getline(src, i), PyWhitespace));
  }

  /** The start-of-file marker appears in the panel exactly when the window starts at line 1 */
  lemma StartMarkerIff(src: seq<string>, lineno: int)
    ensures StartOfFile in CodeContextPanel(src, lineno) <==> WindowStart(lineno) <= 1
  {
    var count := LineCount(src);
    var start := WindowStart(lineno);
    var end := WindowEnd(lineno, count);
    var ns := WindowNumbers(src, start, end);
    var body := RenderLines(src, lineno, ns);
    forall k | 0 <= k < |body| ensures body[k] != StartOfFile {
      ContextLineDigit(src, lineno, ns[k]);
    }
    var trailer := Trailer(count, end);
    assert trailer != StartOfFile by {
      if end < count {
        assert trailer[3] == '.';
      } else {
        assert trailer[2] == '-';
      }
    }
    assert Title[0] == '\n';
    var marker := if start <= 1 then [StartOfFile] else [];
    assert CodeContextPanel(src, lineno) == [Title] + marker + body + [trailer];
  }

  /** The worked example: a nine-line file with the fault on line 5 shows lines 2 to 8, the arrow on line 5, and "1 more lines below" */
  lemma NineLineExample(src: seq<string>)
    requires |src| == 9 && forall i :: 0 <= i < 9 ==> src[i] != ""
    ensures CodeContextPanel(src, 5) == [Title] + RenderLines(src, 5, Range(2, 8)) + ["   ... (" + "1" + " more lines below)"]
    ensures StartsWith(CodeContextPanel(src, 5)[4], Arrow)
  {
    NineLinePanel(src);
    NineLineTrailer();
    NineLineArrow(src);
  }

  lemma NineLineTrailer()
    ensures Trailer(9, 8) == "   ... (" + "1" + " more lines below)"
  {
    assert NatToString(1) == "1";
  }

  /** The fifth printed row of the nine-line example is line 5, the one with the arrow */
  lemma NineLineArrow(src: seq<string>)
    ensures StartsWith(([Title] + RenderLines(src, 5, Range(2, 8)) + [Trailer(9, 8)])[4], Arrow)
  {
    var body := RenderLines(src, 5, Range(2, 8));
    assert ([Title] + body + [Trailer(9, 8)])[4] == body[3];
    assert body[3] == ContextLine(src, 5, 5);
    ArrowOnlyOnFaultLine(src, 5, 5);
  }

  /** A file whose lines are all non-empty is read to its end */
  lemma LineCountAll(src: seq<string>)
    requires forall i :: 0 <= i < |src| ==> src[i] != ""
    ensures LineCount(src) == |src|
  {
  }

  /** The window of the nine-line file around line 5 */
  lemma NineLinePanel(src: seq<string>)
    requires |src| == 9 && forall i :: 0 <= i < 9 ==> src[i] != ""
    ensures CodeContextPanel(src, 5) == [Title] + RenderLines(src, 5, Range(2, 8)) + [Trailer(9, 8)]
  {
    LineCountAll(src);
    assert WindowStart(5) == 2 && WindowEnd(5, 9) == 8;
    WindowExact(src, 2, 8);
  }
}

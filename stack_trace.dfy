/**
 * The traceback chain: finding the innermost (fault) link, the location line,
 * and the numbered stack-trace panel, innermost frame first, with each file
 * path shortened to its last two components.
 */
module StackTrace {
  import opened Wrappers
  import opened Text
  import opened PyModel

  /** `os.sep` on a POSIX host */
  const Sep := '/'

  const Title := "------ Stack Trace ------"

  /** One step of `posixpath.join(path, b)` */
  function PathJoin(path: string, b: string): string {
    if StartsWith(b, [Sep]) then b
    else if path == [] || path[|path| - 1] == Sep then path + b
    else path + [Sep] + b
  }

  /** The shortened path: `os.path.join('...', *parts[-2:])` when the path has more than two components, else the path itself */
  function ShortenPath(filename: string): string {
    var parts := SplitOn(filename, Sep);
    if |parts| > 2 then PathJoin(PathJoin("...", parts[|parts| - 2]), parts[|parts| - 1])
    else filename
  }

  /** A component of a split path neither contains nor starts with the separator */
  lemma ComponentNoSep(part: string)
    requires Sep !in part
    ensures !StartsWith(part, [Sep])
  {
    if |part| > 0 {
      assert part[0] in part;
    }
  }

  /** `os.path.join('...', a, b)` for two separator-free components */
  lemma JoinShortened(a: string, b: string)
    requires Sep !in a && Sep !in b
    ensures a != "" ==> PathJoin(PathJoin("...", a), b) == "..." + [Sep] + a + [Sep] + b
    ensures a == "" ==> PathJoin(PathJoin("...", a), b) == "..." + [Sep] + b
  {
    ComponentNoSep(a);
    ComponentNoSep(b);
  }

  /**
   * A path with at most one separator is shown as it is; a longer one becomes
   * "..." followed by its last two components, an empty second-to-last
   * component being dropped by the join.
   */
  lemma ShortenPathValue(filename: string)
    ensures var parts := SplitOn(filename, Sep);
            var n := |parts|;
            && (n <= 2 ==> ShortenPath(filename) == filename)
            && (n > 2 && parts[n - 2] != "" ==> ShortenPath(filename) == "..." + [Sep] + parts[n - 2] + [Sep] + parts[n - 1])
            && (n > 2 && parts[n - 2] == "" ==> ShortenPath(filename) == "..." + [Sep] + parts[n - 1])
  {
    var parts := SplitOn(filename, Sep);
    var n := |parts|;
    if n > 2 {
      JoinShortened(parts[n - 2], parts[n - 1]);
    }
  }

  /** Three separator-free components joined by the separator split back into them */
  lemma SplitThree(x: string, a: string, b: string)
    requires Sep !in x && Sep !in a && Sep !in b
    ensures SplitOn(x + [Sep] + a + [Sep] + b, Sep) == [x, a, b]
  {
    var ps := [x, a, b];
    assert ps[1..] == [a, b];
    JoinTwoOn(a, b);
    assert JoinOn(ps, Sep) == x + [Sep] + (a + [Sep] + b);
    assert x + [Sep] + (a + [Sep] + b) == x + [Sep] + a + [Sep] + b;
    SplitJoin(ps, Sep);
  }

  /** Two separator-free components joined by the separator split back into them */
  lemma SplitTwo(x: string, b: string)
    requires Sep !in x && Sep !in b
    ensures SplitOn(x + [Sep] + b, Sep) == [x, b]
  {
    JoinTwoOn(x, b);
    SplitJoin([x, b], Sep);
  }

  lemma JoinTwoOn(a: string, b: string)
    ensures JoinOn([a, b], Sep) == a + [Sep] + b
  {
    assert [a, b][1..] == [b];
  }

  /** Splitting a shortened path whose second-to-last component is not empty gives back "..." and the original's last two components */
  lemma ShortenKept(filename: string, parts: seq<string>)
    requires parts == SplitOn(filename, Sep) && |parts| > 2 && parts[|parts| - 2] != ""
    ensures SplitOn(ShortenPath(filename), Sep) == ["...", parts[|parts| - 2], parts[|parts| - 1]]
  {
    ShortenPathValue(filename);
    KeptSplit(parts, ShortenPath(filename));
  }

  /** Splitting a shortened path whose second-to-last component is empty gives back "..." and the original's last component */
  lemma ShortenDropped(filename: string, parts: seq<string>)
    requires parts == SplitOn(filename, Sep) && |parts| > 2 && parts[|parts| - 2] == ""
    ensures SplitOn(ShortenPath(filename), Sep) == ["...", parts[|parts| - 1]]
  {
    ShortenPathValue(filename);
    DroppedSplit(parts, ShortenPath(filename));
  }

  /** "..." and the last two of separator-free components, joined, split back into them */
  lemma KeptSplit(parts: seq<string>, short: string)
    requires |parts| > 2 && forall k :: 0 <= k < |parts| ==> Sep !in parts[k]
    requires short == "..." + [Sep] + parts[|parts| - 2] + [Sep] + parts[|parts| - 1]
    ensures SplitOn(short, Sep) == ["...", parts[|parts| - 2], parts[|parts| - 1]]
  {
    SplitThree("...", parts[|parts| - 2], parts[|parts| - 1]);
  }

  /** "..." and the last of separator-free components, joined, split back into them */
  lemma DroppedSplit(parts: seq<string>, short: string)
    requires |parts| > 2 && forall k :: 0 <= k < |parts| ==> Sep !in parts[k]
    requires short == "..." + [Sep] + parts[|parts| - 1]
    ensures SplitOn(short, Sep) == ["...", parts[|parts| - 1]]
  {
    SplitTwo("...", parts[|parts| - 1]);
  }

  /** The chain of (frame, line number) pairs from this link to the innermost one */
  function Chain(tb: Traceback): (c: seq<(Frame, nat)>)
    ensures |c| >= 1 && c[0] == (tb.frame, tb.lineno)
    decreases tb
  {
    [(tb.frame, tb.lineno)] + (match tb.next case None => [] case Some(n) => Chain(n))
  }

  /** The chain reachable from an optional traceback */
  function ChainOf(tb: Option<Traceback>): seq<(Frame, nat)> {
    match tb
    case None => []
    case Some(t) => Chain(t)
  }

  /** The innermost link: the one without a successor */
  function Innermost(tb: Traceback): (r: Traceback)
    ensures r.next.None?
    decreases tb
  {
    match tb.next
    case None => tb
    case Some(n) => Innermost(n)
  }

  /** The innermost link is the last entry of the chain */
  lemma {:induction false} InnermostIsLast(tb: Traceback)
    ensures var c := Chain(tb); c[|c| - 1] == (Innermost(tb).frame, Innermost(tb).lineno)
    decreases tb
  {
    match tb.next
    case None =>
    case Some(n) =>
      InnermostIsLast(n);
  }

  /** The opening loop of `_custom_excepthook`: follows `tb_next` while there is one */
  method FindFaultFrame(exc: Option<Traceback>) returns (tb: Option<Traceback>)
    ensures exc.None? ==> tb.None?
    ensures exc.Some? ==> tb == Some(Innermost(exc.value))
  {
    tb := exc;
    while tb.Some? && tb.value.next.Some?
      invariant exc.None? ==> tb.None?
      invariant exc.Some? ==> tb.Some? && Innermost(tb.value) == Innermost(exc.value)
      decreases tb
    {
      tb := tb.value.next;
    }
  }

  /** How a frame's code name is shown: `<module>` becomes `__main__` */
  function DisplayName(codeName: string): string {
    if codeName == "<module>" then "__main__" else codeName
  }

  /** Line `i` of the stack trace, for a frame and its line number */
  function StackLine(i: nat, entry: (Frame, nat)): string {
    NatToString(i) + ". " + DisplayName(entry.0.codeName) + " in " + ShortenPath(entry.0.filename) + ":" + NatToString(entry.1)
  }

  /** The numbered lines for a chain, innermost link first, numbered from 1 */
  function StackLines(chain: seq<(Frame, nat)>): (lines: seq<string>)
    ensures |lines| == |chain|
  {
    seq(|chain|, k requires 0 <= k < |chain| => StackLine(k + 1, chain[|chain| - 1 - k]))
  }

  /** What `_print_stack_frames` prints */
  function StackPanel(exc: Option<Traceback>): seq<string> {
    [Title] + StackLines(ChainOf(exc))
  }

  /** The first loop of `_print_stack_frames`: collects the links from outermost to innermost */
  method CollectStack(exc: Option<Traceback>) returns (stack: seq<(Frame, nat)>)
    ensures stack == ChainOf(exc)
  {
    stack := [];
    var tb := exc;
    while tb.Some?
      invariant stack + ChainOf(tb) == ChainOf(exc)
      decreases tb
    {
      stack := stack + [(tb.value.frame, tb.value.lineno)];
      tb := tb.value.next;
    }
  }

  /** `_print_stack_frames`: the title, then the links in reverse order, numbered from 1 */
  method PrintStackFrames(exc: Option<Traceback>) returns (out: seq<string>)
    ensures out == StackPanel(exc)
  {
    var stack := CollectStack(exc);
    out := PrintReversed(stack);
  }

  /** The second loop of `_print_stack_frames`: `enumerate(reversed(stack), 1)` */
  method PrintReversed(stack: seq<(Frame, nat)>) returns (out: seq<string>)
    ensures out == [Title] + StackLines(stack)
  {
    out := [Title];
    var j := 0;
    while j < |stack|
      invariant 0 <= j <= |stack|
      invariant out == [Title] + StackLines(stack)[..j]
    {
      out := out + [StackLine(j + 1, stack[|stack| - 1 - j])];
      assert StackLines(stack)[..j + 1] == StackLines(stack)[..j] + [StackLines(stack)[j]];
      j := j + 1;
    }
    assert StackLines(stack)[..j] == StackLines(stack);
  }

  /** Entry 1 of the stack trace is the fault frame, and the last entry is the outermost link */
  lemma StackPanelEnds(tb: Traceback)
    ensures var out := StackPanel(Some(tb));
            var fault := Innermost(tb);
            && |out| == 1 + |Chain(tb)|
            && out[1] == StackLine(1, (fault.frame, fault.lineno))
            && out[|out| - 1] == StackLine(|Chain(tb)|, (tb.frame, tb.lineno))
  {
    var chain := Chain(tb);
    var fault := Innermost(tb);
    StackLinesEnds(chain);
    InnermostIsLast(tb);
    assert chain[|chain| - 1] == (fault.frame, fault.lineno);
    assert chain[0] == (tb.frame, tb.lineno);
  }

  /** The first numbered line is the innermost link, the last one the outermost */
  lemma StackLinesEnds(chain: seq<(Frame, nat)>)
    requires chain != []
    ensures var out := [Title] + StackLines(chain);
            && out[1] == StackLine(1, chain[|chain| - 1])
            && out[|out| - 1] == StackLine(|chain|, chain[0])
  {
  }

  /** The location line of `_print_file_location` */
  function LocationLine(filename: string, lineno: nat): string {
    "\nLocation: " + ShortenPath(filename) + ", line " + NatToString(lineno)
  }
}

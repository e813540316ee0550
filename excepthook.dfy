/**
 * The crash reporter as installed in the interpreter: `sys.excepthook`, the
 * report the custom hook prints for an uncaught exception (header, frame
 * state, location, stack trace, code context, analyser lines, details panel),
 * and the fall-back to the interpreter's default hook.
 */
module Excepthook {
  import opened Wrappers
  import opened Text
  import opened PyModel
  import FrameInfo
  import CodeContext
  import StackTrace
  import Extractors
  import DetailsPanel

  const Banner := "[debug-pro] Custom except hook enabled"

  /** The 60-character rule above and below the error line */
  function Rule(): (r: string)
    ensures |r| == 60 && forall k :: 0 <= k < 60 ==> r[k] == '='
  {
    Repeat('=', 60)
  }

  /** `_print_exception_header` */
  function HeaderLines(excName: string, msg: string): seq<string> {
    ["\n" + Rule(), "ERROR: " + excName + ": " + msg, Rule()]
  }

  /** How one call of the custom hook ends */
  datatype Ending =
    | NothingToReport       // no traceback: nothing printed
    | DetailsShown          // an analyser produced a dict and the panel printed it
    | DefaultHookCalled     // no analyser dict: `sys.__excepthook__` prints the standard report
    | LookupFailed(key: string) // the panel read a key a partial dict lacks: `KeyError(key)` escapes the hook

  datatype Report = Report(lines: seq<string>, ending: Ending)

  /** The link the report is about: the innermost one */
  function Fault(tb: Traceback): (r: Traceback)
    ensures r.next.None?
  {
    StackTrace.Innermost(tb)
  }

  /** The stripped source line at the fault: `linecache.getline(filename, lineno).strip()` */
  function FaultLine(files: map<string, seq<string>>, fault: Traceback): string {
    Strip(Getline(SourceOf(files, fault.frame.filename), fault.lineno), PyWhitespace)
  }

  /** The five panels printed before the analysers run, for the innermost link `fault` of `tb` */
  function Panels(excName: string, msg: string, tb: Traceback, fault: Traceback,
                  files: map<string, seq<string>>, envLines: seq<string>): seq<string> {
    HeaderLines(excName, msg)
      + FrameInfo.FrameInfoPanel(fault.frame.locals, envLines)
      + [StackTrace.LocationLine(fault.frame.filename, fault.lineno)]
      + StackTrace.StackPanel(Some(tb))
      + CodeContext.CodeContextPanel(SourceOf(files, fault.frame.filename), fault.lineno)
  }

  /**
   * How the hook goes on once the analysers have run: their notes, then the
   * details panel when they produced a dict, else the default hook.
   */
  function Outcome(s: Extractors.Scan, msg: string, line: string): Report {
    match s.details
    case None => Report(s.notes, DefaultHookCalled)
    case Some(d) =>
      var r := DetailsPanel.Render(d, msg, line);
      Report(s.notes + r.lines, if r.missing.Some? then LookupFailed(r.missing.value) else DetailsShown)
  }

  /** The analysers run on the fault frame and its stripped source line, and what follows them */
  function FaultOutcome(exc: ExcType, msg: string, files: map<string, seq<string>>, fault: Traceback): Report {
    var line := FaultLine(files, fault);
    Outcome(Extractors.ExceptionDetails(exc, msg, fault.frame.locals, line), msg, line)
  }

  /**
   * What `_custom_excepthook` prints for an exception of class `exc` with
   * message `msg` (`str(exc_value)`) and traceback `tb`, and how it ends.
   * `files` stands for the source files `linecache` reads and `envLines` for
   * the System Info and Python Path sections.
   */
  function HookReport(exc: ExcType, msg: string, tb: Option<Traceback>,
                      files: map<string, seq<string>>, envLines: seq<string>): Report {
    match tb
    case None => Report([], NothingToReport)
    case Some(t) =>
      var fault := Fault(t);
      var o := FaultOutcome(exc, msg, files, fault);
      Report(Panels(exc.name, msg, t, fault, files, envLines) + o.lines, o.ending)
  }

  /** The printing half of `_custom_excepthook` for the fault link `fault` of `tb` */
  method PrintPanels(excName: string, msg: string, tb: Traceback, fault: Traceback,
                     files: map<string, seq<string>>, envLines: seq<string>) returns (out: seq<string>)
    ensures out == Panels(excName, msg, tb, fault, files, envLines)
  {
    var src := SourceOf(files, fault.frame.filename);
    out := HeaderLines(excName, msg);
    var info := FrameInfo.PrintFrameInfo(fault.frame.locals, envLines);
    out := out + info;
    out := out + [StackTrace.LocationLine(fault.frame.filename, fault.lineno)];
    var stack := StackTrace.PrintStackFrames(Some(tb));
    out := out + stack;
    var context := CodeContext.PrintCodeContext(src, fault.lineno);
    out := out + context;
  }

  /** The analysing half of `_custom_excepthook`: notes, then the details panel or the fall-back */
  method AnalyseAndReport(exc: ExcType, msg: string, locals: seq<Local>, line: string) returns (r: Report)
    ensures r == Outcome(Extractors.ExceptionDetails(exc, msg, locals, line), msg, line)
  {
    var details, notes := Extractors.GetExceptionDetails(exc, msg, locals, line);
    if details.Some? {
      var rendered := DetailsPanel.Render(details.value, msg, line);
      r := Report(notes + rendered.lines,
                  if rendered.missing.Some? then LookupFailed(rendered.missing.value) else DetailsShown);
    } else {
      r := Report(notes, DefaultHookCalled);
    }
  }

  /** `_custom_excepthook` as a computation: everything it prints, and how it ends */
  method RunHook(exc: ExcType, msg: string, tb: Option<Traceback>,
                          files: map<string, seq<string>>, envLines: seq<string>) returns (r: Report)
    ensures r == HookReport(exc, msg, tb, files, envLines)
  {
    var fault := StackTrace.FindFaultFrame(tb);
    if fault.None? {
      return Report([], NothingToReport);
    }
    var line := Strip(Getline(SourceOf(files, fault.value.frame.filename), fault.value.lineno), PyWhitespace);
    var panels := PrintPanels(exc.name, msg, tb.value, fault.value, files, envLines);
    var o := AnalyseAndReport(exc, msg, fault.value.frame.locals, line);
    r := Report(panels + o.lines, o.ending);
  }

  /** Which function `sys.excepthook` holds */
  datatype Hook = DefaultExcepthook | CustomExcepthook

  /** The interpreter state the reporter touches */
  class PySys {
    var excepthook: Hook
    var stdout: seq<string>
    /** Calls of `sys.__excepthook__`, which writes the standard traceback to stderr */
    var defaultHookCalls: nat
    /** The keys of the `KeyError`s that escaped the custom hook, in order */
    var hookErrors: seq<string>

    constructor()
      ensures excepthook == DefaultExcepthook && stdout == [] && defaultHookCalls == 0 && hookErrors == []
    {
      excepthook := DefaultExcepthook;
      stdout := [];
      defaultHookCalls := 0;
      hookErrors := [];
    }

    /** `install_custom_excepthook`: prints the banner and replaces `sys.excepthook` */
    method InstallCustomExcepthook()
      modifies this
      ensures excepthook == CustomExcepthook
      ensures stdout == old(stdout) + [Banner]
      ensures defaultHookCalls == old(defaultHookCalls) && hookErrors == old(hookErrors)
    {
      stdout := stdout + [Banner];
      excepthook := CustomExcepthook;
    }

    /** `_custom_excepthook`: the report, then the details panel or the default hook */
    method RunCustomExcepthook(exc: ExcType, msg: string, tb: Option<Traceback>,
                               files: map<string, seq<string>>, envLines: seq<string>)
      modifies this
      ensures var r := HookReport(exc, msg, tb, files, envLines);
              && stdout == old(stdout) + r.lines
              && excepthook == old(excepthook)
              && defaultHookCalls == old(defaultHookCalls) + (if r.ending == DefaultHookCalled then 1 else 0)
              && hookErrors == old(hookErrors) + (if r.ending.LookupFailed? then [r.ending.key] else [])
    {
      var r := RunHook(exc, msg, tb, files, envLines);
      Deliver(r);
    }

    /** The effect of one report: its lines on stdout, then the default hook or the escaping `KeyError` */
    method Deliver(r: Report)
      modifies this
      ensures stdout == old(stdout) + r.lines
      ensures excepthook == old(excepthook)
      ensures defaultHookCalls == old(defaultHookCalls) + (if r.ending == DefaultHookCalled then 1 else 0)
      ensures hookErrors == old(hookErrors) + (if r.ending.LookupFailed? then [r.ending.key] else [])
    {
      stdout := stdout + r.lines;
      if r.ending == DefaultHookCalled {
        defaultHookCalls := defaultHookCalls + 1;
      } else if r.ending.LookupFailed? {
        hookErrors := hookErrors + [r.ending.key];
      }
    }

    /** The interpreter handing an uncaught exception to whatever `sys.excepthook` holds */
    method UncaughtException(exc: ExcType, msg: string, tb: Option<Traceback>,
                             files: map<string, seq<string>>, envLines: seq<string>)
      modifies this
      ensures excepthook == old(excepthook)
      ensures old(excepthook) == DefaultExcepthook ==>
                stdout == old(stdout) && defaultHookCalls == old(defaultHookCalls) + 1 && hookErrors == old(hookErrors)
      ensures old(excepthook) == CustomExcepthook ==>
                stdout == old(stdout) + HookReport(exc, msg, tb, files, envLines).lines
      ensures old(excepthook) == CustomExcepthook ==>
                defaultHookCalls == old(defaultHookCalls) + (if HookReport(exc, msg, tb, files, envLines).ending == DefaultHookCalled then 1 else 0)
      ensures old(excepthook) == CustomExcepthook ==>
                hookErrors == old(hookErrors) + (if HookReport(exc, msg, tb, files, envLines).ending.LookupFailed? then [HookReport(exc, msg, tb, files, envLines).ending.key] else [])
    {
      if excepthook == CustomExcepthook {
        RunCustomExcepthook(exc, msg, tb, files, envLines);
      } else {
        defaultHookCalls := defaultHookCalls + 1;
      }
    }
  }

  /**
   * After the analysers, the hook falls back to the default hook exactly when
   * they produced no dict, stops with a lookup error exactly when the dict is
   * partial, and otherwise shows the details panel after the notes.
   */
  lemma OutcomeEnding(s: Extractors.Scan, msg: string, line: string)
    ensures var o := Outcome(s, msg, line);
            && o.ending != NothingToReport
            && (o.ending == DefaultHookCalled <==> s.details.None?)
            && (o.ending.LookupFailed? <==> s.details.Some? && DetailsPanel.IsPartial(s.details.value))
            && (o.ending == DetailsShown <==> s.details.Some? && !DetailsPanel.IsPartial(s.details.value))
            && o.lines[..|s.notes|] == s.notes
  {
    if s.details.Some? {
      DetailsPanel.RenderOutcome(s.details.value, msg, line);
    }
  }

  /** The report opens with the header and then the innermost frame's state */
  lemma PanelsStart(excName: string, msg: string, tb: Traceback, fault: Traceback,
                    files: map<string, seq<string>>, envLines: seq<string>, rest: seq<string>)
    ensures var out := Panels(excName, msg, tb, fault, files, envLines) + rest;
            var info := FrameInfo.FrameInfoPanel(fault.frame.locals, envLines);
            && out[..3] == HeaderLines(excName, msg)
            && out[3..3 + |info|] == info
  {
    var head := HeaderLines(excName, msg);
    var info := FrameInfo.FrameInfoPanel(fault.frame.locals, envLines);
    var loc := [StackTrace.LocationLine(fault.frame.filename, fault.lineno)];
    var stack := StackTrace.StackPanel(Some(tb));
    var context := CodeContext.CodeContextPanel(SourceOf(files, fault.frame.filename), fault.lineno);
    PartsAt(head, info, loc, stack, context, rest);
  }

  /** Where the first two parts of a concatenation sit */
  lemma PartsAt(head: seq<string>, info: seq<string>, loc: seq<string>, stack: seq<string>, context: seq<string>, rest: seq<string>)
    ensures var out := head + info + loc + stack + context + rest;
            && out[..|head|] == head
            && out[|head|..|head| + |info|] == info
  {
    var out := head + info + loc + stack + context + rest;
    assert out == head + info + (loc + stack + context + rest);
  }

  /**
   * With a traceback, the report opens with the header and the innermost
   * frame's state, and ends as the analysers of that frame decide (see
   * `OutcomeEnding`).
   */
  lemma HookReportShape(exc: ExcType, msg: string, tb: Traceback,
                        files: map<string, seq<string>>, envLines: seq<string>)
    ensures HookReport(exc, msg, Some(tb), files, envLines).lines[..3] == HeaderLines(exc.name, msg)
    ensures HookReport(exc, msg, Some(tb), files, envLines).lines[3..3 + |FrameInfo.FrameInfoPanel(Fault(tb).frame.locals, envLines)|]
              == FrameInfo.FrameInfoPanel(Fault(tb).frame.locals, envLines)
    ensures HookReport(exc, msg, Some(tb), files, envLines).ending == FaultOutcome(exc, msg, files, Fault(tb)).ending
  {
    ShapeAt(exc, msg, tb, files, envLines, Fault(tb));
  }

  /** `HookReportShape` with the fault link named */
  lemma ShapeAt(exc: ExcType, msg: string, tb: Traceback,
                files: map<string, seq<string>>, envLines: seq<string>, fault: Traceback)
    requires fault == Fault(tb)
    ensures HookReport(exc, msg, Some(tb), files, envLines).lines[..3] == HeaderLines(exc.name, msg)
    ensures HookReport(exc, msg, Some(tb), files, envLines).lines[3..3 + |FrameInfo.FrameInfoPanel(fault.frame.locals, envLines)|]
              == FrameInfo.FrameInfoPanel(fault.frame.locals, envLines)
    ensures HookReport(exc, msg, Some(tb), files, envLines).ending == FaultOutcome(exc, msg, files, fault).ending
  {
    var o := FaultOutcome(exc, msg, files, fault);
    HookReportSplit(exc, msg, tb, files, envLines);
    PanelsStart(exc.name, msg, tb, fault, files, envLines, o.lines);
  }

  /** With a traceback, the report is the panels for its innermost link followed by what the analysers lead to */
  lemma HookReportSplit(exc: ExcType, msg: string, tb: Traceback,
                        files: map<string, seq<string>>, envLines: seq<string>)
    ensures var fault := Fault(tb);
            var o := FaultOutcome(exc, msg, files, fault);
            HookReport(exc, msg, Some(tb), files, envLines) == Report(Panels(exc.name, msg, tb, fault, files, envLines) + o.lines, o.ending)
  {
  }
}

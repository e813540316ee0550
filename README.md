# debugpro core, modelled in Dafny

This project models three pieces of the debugpro repository and proves properties of them.

1. **The crash reporter** (`src/debugpro/excepthook.py`). This is the `sys.excepthook` replacement. For an uncaught exception it does the following:
   - It walks the traceback to its innermost link.
   - It prints a header.
   - It prints the fault frame's locals, sorted into modules, functions and variables by the start of their `repr`.
   - It prints the location line and a numbered stack trace, innermost frame first, with shortened paths.
   - It prints a window of source lines, three either side of the fault line.
   - It picks an analyser by the exception's class: KeyError, IndexError/TypeError, AttributeError or NameError. The analyser scans the locals for the variable the failing line names.
   - If the analyser produced a details dict, the hook prints a details panel. Otherwise it hands the exception to the interpreter's default hook.
2. **Structural type inference** (`src/psycopg_hate/type_analyzer.py`).
   - `get_complex_type_annotation` maps a nested value (None, scalars, dicts, lists, tuples, sets) to a PEP 585 annotation. Children that disagree give a `Union`.
   - `type_to_string` prints such an annotation.
3. **The problematic-column classifier** (`identify_problematic_columns`). It lists the DataFrame columns a PostgreSQL adapter cannot take as they are. It judges each column by its first non-null cell: a dict, a list holding a dict, or a list of lists one of which holds a dict. The function is byte-identical in `src/psycopg_hate/identify_problematic_columns.py` and `src/psycopg_hate/adapt_dict_now.py`, so one module covers both.

## How the model is built

- Live Python objects are plain data (module `PyModel`).
  - A local variable is its name plus what `repr`, `isinstance(.., dict)` with the keys, `len`, `isinstance(.., (list, tuple))`, `dir` and `type(..).__name__` would report. A `repr` that raises is a value of its own.
  - A frame is its locals in `f_locals` order plus its file name and code name.
  - A traceback is a linked chain of frames.
  - An exception class is its name plus the answers `issubclass` gives for the classes the reporter tests.
  - A source file is the sequence of its lines. `linecache.getline` returns `""` outside it.
- Printed output is a sequence of strings, one per `print` call. ANSI colour codes are dropped.
- The imperative parts keep their loops, each proved equal to a specification function:
  - `_get_frame_info`;
  - the line-counting and window loops of `_print_code_context`;
  - the two loops of `_print_stack_frames`;
  - the analysers' `for ... break` scans;
  - the traceback walk in `_custom_excepthook`;
  - the classifier's column loop and `has_nested_dict` loop.
- The interpreter state the hook touches is the class `Excepthook.PySys`. Its fields are:
  - the `sys.excepthook` slot;
  - stdout;
  - the number of calls to `sys.__excepthook__`;
  - the `KeyError`s that escape the hook.
- The type inference is pure: a datatype of values, a datatype of annotations (a `Union` holds a `set` of members), and two recursive functions.
- A DataFrame is a sequence of columns. Each column has a label and its cells, `None` standing for a null.

Behaviour of the code as written that the model keeps:

- **AttributeError analyser.** It takes the text between the first two single quotes of the message. For Python's own message `'dict' object has no attribute 'x'` that is the type name `dict`, not the attribute (`Extractors.MissingAttributeQuirk`).
- **Partial dicts.** An analyser's dict gets its `type` and variable-name entries before `repr` of the value is called. When that `repr` raises, the scan goes on, and a partial dict can be left behind. The details panel then reads a missing key, and a `KeyError` escapes the hook (`DetailsPanel.RenderOutcome`, `Excepthook.OutcomeEnding`).
- **The ordering of output.** Header, frame state, location, stack trace and code context are always printed before the analysers run. So the default hook's report follows them when there are no details (`Excepthook.HookReportShape`).
- **Union order.** Members are printed in the order the set yields them. Lemmas about union-valued results therefore state either order, or state the annotation itself.
- **Substring checks.** Where a repository test checks that an opening fragment such as `list[Union[` or `dict[str, list[dict[str` is a substring of the result, the lemma states the stronger fact that the result starts with it. Checks for a type name (`"bool" in result`) are stated as `Contains`, and `"name" not in result` as its negation.

## Model

| member | source | states |
|---|---|---|
| FrameInfo.Put | src/debugpro/excepthook.py:28-34 | dict assignment: a new key is appended at the end; an existing key keeps its place and every key keeps its position |
| FrameInfo.PutLookup | src/debugpro/excepthook.py:28-34 | after the assignment the key maps to the new value and every other key keeps its value |
| FrameInfo.PutKeysDistinct | src/debugpro/excepthook.py:28-34 | assignment keeps a dict's keys distinct |
| FrameInfo.GetFrameInfo | src/debugpro/excepthook.py:15-36 | the loop over the locals fills the three dicts exactly as the one-pass classification does |
| FrameInfo.ClassifiedLookup | src/debugpro/excepthook.py:21-34 | a local whose name does not start with `__` is in exactly one bucket, the one its repr's prefix selects: `<module`, then `<function` or `<bound method`, else variables. It is stored with its repr, or with `<unprintable: e>` when repr raised. A dunder name is in no bucket. |
| FrameInfo.ClassifiedOnlyLocals | src/debugpro/excepthook.py:21-34 | every name in a bucket is a non-dunder local of the frame |
| FrameInfo.ClassifiedKeysDistinct | src/debugpro/excepthook.py:17-34 | each bucket is a dict: no name twice |
| Text.LexLeTotal | src/debugpro/excepthook.py:73 | Python's string order, which `sorted` uses, is total |
| Text.LexLeTransitive | src/debugpro/excepthook.py:73 | Python's string order is transitive |
| Text.LexLeAntisymmetric | src/debugpro/excepthook.py:73 | Python's string order is antisymmetric |
| FrameInfo.SortByKey | src/debugpro/excepthook.py:73 | `sorted(variables.items())`: ascending by name and a permutation of the entries |
| FrameInfo.Truncate | src/debugpro/excepthook.py:74-75 | the shown value is the whole repr when it has at most 500 characters, and exactly its first 500 characters otherwise |
| FrameInfo.VariablesSectionShape | src/debugpro/excepthook.py:71-78 | the variables section is the title, then one `name = value` line per variable in ascending name order with the value cut to 500 characters; `  None` when there are none |
| FrameInfo.PrintNames | src/debugpro/excepthook.py:44-57 | a section prints its title, then each name in dict order, or `  None` for an empty dict |
| FrameInfo.PrintVariables | src/debugpro/excepthook.py:71-78 | the printing loop produces exactly the variables section |
| FrameInfo.PrintFrameInfo | src/debugpro/excepthook.py:39-78 | prints the modules, functions, environment and variables sections of the classified locals |
| CodeContext.LineCount | src/debugpro/excepthook.py:100-103 | the line count is the number of consecutive readable lines from line 1: each of them is non-empty and the next is not |
| CodeContext.CountLines | src/debugpro/excepthook.py:100-103 | the `while` loop stops at exactly that count |
| CodeContext.WindowBounds | src/debugpro/excepthook.py:106-108 | start is `max(1, lineno-3)` and end is `min(line_count, lineno+3)` |
| CodeContext.RenderStep | src/debugpro/excepthook.py:114-122 | one turn of the `for` loop appends line `i`, rendered, exactly when `linecache` returns text for it |
| CodeContext.PrintWindow | src/debugpro/excepthook.py:114-122 | the loop prints the readable lines of the window in order, each rendered with its marker and number |
| CodeContext.WindowExact | src/debugpro/excepthook.py:114-116 | inside the readable part of the file the window holds every line number from start to end, in order |
| CodeContext.ArrowOnlyOnFaultLine | src/debugpro/excepthook.py:117-122 | a printed line starts with the arrow exactly when it is the fault line |
| CodeContext.PrintCodeContext | src/debugpro/excepthook.py:81-129 | the printed panel is the title, the start marker when the window starts at line 1, the window's lines, then one trailer |
| CodeContext.CodeContextBody | src/debugpro/excepthook.py:110-122 | panel length and layout: title, the start-of-file marker exactly when start ≤ 1, then every line from start to end in order |
| CodeContext.StartMarkerIff | src/debugpro/excepthook.py:111-112 | `-- start of file --` appears in the panel exactly when the window starts at line 1 |
| CodeContext.CodeContextTrailer | src/debugpro/excepthook.py:124-129 | the last line is `... (k more lines below)` with k = line_count − end when end < line_count, else the end-of-file marker |
| CodeContext.NineLineExample | src/debugpro/excepthook.py:84-95 | the docstring's example: a nine-line file with the fault on line 5 shows lines 2 to 8, the arrow on line 5, and `1 more lines below` |
| Text.JoinSplit | src/debugpro/excepthook.py:158 | joining the parts of `filename.split(os.sep)` gives back the file name |
| Text.SplitJoin | src/debugpro/excepthook.py:158 | splitting a join of separator-free parts gives back the parts |
| StackTrace.ShortenPathValue | src/debugpro/excepthook.py:158-162 | a path with at most two components is unchanged; a longer one becomes `...` + sep + its last two components (an empty second-to-last component is dropped by `os.path.join`) |
| StackTrace.ShortenKept | src/debugpro/excepthook.py:171-175 | when the path has more than two components and the second-to-last is not empty, splitting the shortened path gives back `...` and the original's last two components |
| StackTrace.ShortenDropped | src/debugpro/excepthook.py:171-175 | when the path has more than two components and the second-to-last is empty, splitting the shortened path gives back `...` and the original's last component |
| StackTrace.InnermostIsLast | src/debugpro/excepthook.py:345-347 | the innermost link is the last entry of the traceback chain |
| StackTrace.FindFaultFrame | src/debugpro/excepthook.py:345-347 | the walk along `tb_next` stops at the innermost link, and yields nothing for no traceback |
| StackTrace.CollectStack | src/debugpro/excepthook.py:145-149 | the `while` loop collects the chain's (frame, line) pairs from outermost to innermost |
| StackTrace.PrintReversed | src/debugpro/excepthook.py:151-163 | the loop prints the title, then the collected links in reverse, numbered from 1 |
| StackTrace.PrintStackFrames | src/debugpro/excepthook.py:132-163 | the stack panel is the title, then the chain reversed and numbered, `<module>` shown as `__main__` |
| StackTrace.StackPanelEnds | src/debugpro/excepthook.py:151-163 | entry 1 is the fault frame with its line number, and the last entry is the outermost link |
| Excepthook.Rule | src/debugpro/excepthook.py:183-185 | the rule around the error line is 60 `=` characters |
| Seqs.FilterComplete | src/debugpro/excepthook.py:248-249 | a comprehension with a condition keeps every element that satisfies it |
| Seqs.FilterEmpty | src/debugpro/excepthook.py:250-251 | the filtered list is empty exactly when no element qualifies |
| Extractors.ScanLocals | src/debugpro/excepthook.py:236-254 | the analysers' shared loop computes exactly the first-match scan |
| Extractors.ScanFirstPrinted | src/debugpro/excepthook.py:236-254 | the dict comes from the first matching local whose repr works; the error lines are those of the matching locals before it |
| Extractors.ScanNonePrinted | src/debugpro/excepthook.py:253-254 | when no matching local has a working repr, each matching local leaves its error line. The dict is the partial one of the last matching local, or none when no local matches. |
| Extractors.ScanLabel | src/debugpro/excepthook.py:241 | every dict a scan yields carries the label its analyser gives |
| Extractors.SimilarKeysExact | src/debugpro/excepthook.py:248-249 | a key is suggested exactly when both texts are non-empty and one contains the other |
| Extractors.KeyErrorNeedsLine | src/debugpro/excepthook.py:237 | with an empty fault line the KeyError analyser finds nothing and prints nothing |
| Text.Strip | src/debugpro/excepthook.py:239 | `strip` gives a middle part of the message that neither starts nor ends with a stripped character |
| Text.PyStrReprRoundTrip | src/debugpro/excepthook.py:244 | `repr(key_str)` loses nothing: the quoted body reads back as the key. Non-printable characters below U+0100 are written as `\xNN`, so the output holds none of them |
| Extractors.ValidIndicesBound | src/debugpro/excepthook.py:269-270 | the valid-indices text is `0 to ` followed by n − 1 (read back as a number) for a non-empty list or tuple, or by `N/A (empty)` |
| Text.NatToStringRoundTrip | src/debugpro/excepthook.py:270 | the decimal text of a number reads back as that number |
| Extractors.QuotedName | src/debugpro/excepthook.py:280 | a name is parsed exactly when the message holds a quote, and it is the text between the first and second quotes |
| Extractors.QuotedFirstWord | src/debugpro/excepthook.py:312 | a message opening with a quoted word yields that word |
| Extractors.MissingAttributeQuirk | src/debugpro/excepthook.py:280 | for `'T' object has no attribute 'x'` the analyser takes `T` as the missing attribute |
| Extractors.ObjectFoundShape | src/debugpro/excepthook.py:284-301 | the attribute dict holds the object's name, value and type. Available attributes are the first 100 non-dunder `dir` names, present only when there is one. The count is present exactly when there are more than 20. Suggestions are present exactly when some visible name is similar to the missing one, and then list exactly the similar visible names. |
| Extractors.NameSuggestionsExact | src/debugpro/excepthook.py:310-323 | a non-empty quoted name gets a NameError dict whose suggestions are exactly the locals, dunders included, similar to it |
| Extractors.GetExceptionDetails | src/debugpro/excepthook.py:326-334 | dispatch runs the analyser for the first class tested (KeyError, IndexError/TypeError, AttributeError, NameError), with its loop |
| Extractors.DetailsLabel | src/debugpro/excepthook.py:326-334 | the dict's `type` entry names the first tested class the exception belongs to |
| Extractors.AttributeDetailsLabel | src/debugpro/excepthook.py:278-307 | every AttributeError dict is labelled `AttributeError` |
| Extractors.NoDetailsForOtherClasses | src/debugpro/excepthook.py:326-334 | an exception of no tested class gets no dict and no error lines |
| DetailsPanel.InvalidIndexOfSubscript | src/debugpro/excepthook.py:207-211 | for a line `p[idx]...` the panel reports `idx` as the invalid index |
| DetailsPanel.RenderOutcome | src/debugpro/excepthook.py:188-230 | the panel opens with the heading. It stops with a lookup error exactly for a partial dict, after the heading alone, naming the missing value entry. |
| DetailsPanel.AttributeOverflow | src/debugpro/excepthook.py:217-221 | the attribute lines show the first 100 visible names, then `... and N more` exactly when there are more than 100 |
| DetailsPanel.HundredFiftyAttributes | src/debugpro/excepthook.py:217-221 | 150 visible names show 100 of them and `  ... and 50 more` |
| Excepthook.PrintPanels | src/debugpro/excepthook.py:363-367 | the five panels are printed in order: header, frame state, location, stack trace, code context |
| Excepthook.AnalyseAndReport | src/debugpro/excepthook.py:368-375 | the analysers' notes, then the details panel when there is a dict, else the default hook |
| Excepthook.RunHook | src/debugpro/excepthook.py:337-375 | the hook's whole output and ending. With no traceback it prints nothing. |
| Excepthook.OutcomeEnding | src/debugpro/excepthook.py:372-375 | the default hook is called exactly when there is no dict. A lookup error ends the hook exactly for a partial dict. Otherwise the details are shown. The analysers' notes come first. |
| Excepthook.PanelsStart | src/debugpro/excepthook.py:363-364 | the report opens with the header, then the fault frame's state |
| Excepthook.HookReportShape | src/debugpro/excepthook.py:349-375 | with a traceback the report starts with the header and the innermost frame's state, and ends as that frame's analysers decide |
| Excepthook.PySys.constructor | src/debugpro/excepthook.py:378-380 | the interpreter starts with its default hook and empty output |
| Excepthook.PySys.InstallCustomExcepthook | src/debugpro/excepthook.py:378-380 | prints the banner and sets the slot to the custom hook whatever it held, so a second install changes the slot no further |
| Excepthook.PySys.Deliver | src/debugpro/excepthook.py:372-375 | a report's lines go to stdout, then the default hook is called or the escaping `KeyError` is recorded |
| Excepthook.PySys.RunCustomExcepthook | src/debugpro/excepthook.py:337-375 | the custom hook appends its report to stdout and calls the default hook exactly when the report ends that way |
| Excepthook.PySys.UncaughtException | src/debugpro/excepthook.py:378-380 | an uncaught exception goes to whichever hook the slot holds; only the custom one prints the report |
| TypeAnalyzer.AnnotationUnfold | src/psycopg_hate/type_analyzer.py:9-45 | a non-empty container's annotation merges its children's annotations. A tuple's annotation is its children's, one per position and as many as it has elements. |
| TypeAnalyzer.MergeCases | src/psycopg_hate/type_analyzer.py:18-19 | children that agree give their one annotation; children that disagree give a union of their distinct annotations, with at least two members |
| TypeAnalyzer.MergeBySet | src/psycopg_hate/type_analyzer.py:14-19 | the merge depends only on the set of child annotations |
| TypeAnalyzer.ChildTypesEmpty | src/psycopg_hate/type_analyzer.py:10-11 | only an empty container has no child annotations |
| TypeAnalyzer.ElementAnnotation | src/psycopg_hate/type_analyzer.py:28-45 | a list or set whose elements agree is annotated by that one annotation; otherwise by the union of the distinct ones (at least two) |
| TypeAnalyzer.DictAnnotation | src/psycopg_hate/type_analyzer.py:14-21 | a dict's key and value arguments merge its keys and its values separately, as a list of them would |
| TypeAnalyzer.OrderAndRepeatsIgnored | src/psycopg_hate/type_analyzer.py:28-29 | a list's and a set's annotation depends only on the set of its elements' annotations |
| TypeAnalyzer.SameElementsSameAnnotation | src/psycopg_hate/type_analyzer.py:28-29 | reordering or repeating elements does not change a list's or set's annotation |
| TypeAnalyzer.ShapeDetermines | src/psycopg_hate/type_analyzer.py:4-50 | the annotation depends only on the shape and the leaf types, never on leaf values or key text |
| TypeAnalyzer.ShapesDetermine | src/psycopg_hate/type_analyzer.py:37-38 | children of the same shapes have the same annotations, position by position |
| TypeAnalyzer.MergePlaced | src/psycopg_hate/type_analyzer.py:18-19 | merging annotations that hold no top-level union gives a valid argument: one of them, or a union of two or more |
| TypeAnalyzer.AnnotationPlaced | src/psycopg_hate/type_analyzer.py:4-50 | no union at the top, and unions only as the whole argument of a dict, list or set, none nested directly in another, so no flattening is needed |
| TypeAnalyzer.TypeToStringUnfold | src/psycopg_hate/type_analyzer.py:63-76 | tuples and unions print their arguments joined by `, ` inside `tuple[...]` and `Union[...]` |
| TypeAnalyzer.MergeShows | src/psycopg_hate/type_analyzer.py:63-64 | the printed merge contains every child's printed annotation |
| TypeAnalyzer.ShowsThroughMerge | src/psycopg_hate/type_analyzer.py:69-76 | what an element's printed annotation shows, the list's and the set's show |
| TypeAnalyzer.ShowsThroughTuple | src/psycopg_hate/type_analyzer.py:72-73 | what an element's printed annotation shows, the tuple's shows |
| TypeAnalyzer.ShowsThroughDict | src/psycopg_hate/type_analyzer.py:66-67 | what a key's or a value's printed annotation shows, the dict's shows |
| TypeAnalyzer.ShowsLeafTypes | src/psycopg_hate/type_analyzer.py:4-76 | every leaf type of a value is named in its printed annotation |
| TypeAnalyzer.AnnotationAvoids | src/psycopg_hate/type_analyzer.py:4-50 | the annotation names only the leaves' types |
| TypeAnalyzer.PrintedAvoids | src/psycopg_hate/type_analyzer.py:52-76 | the printed annotation holds only characters of its class names and of the printer's fixed pieces |
| TypeAnalyzer.WordNotShown | src/psycopg_hate/type_analyzer.py:4-76 | a word with a character that is in no leaf type name and in no fixed piece of the printer never appears in the printed annotation |
| TypeAnalyzer.TwoMembers | src/psycopg_hate/type_analyzer.py:18-19 | a two-member union yields its members in one order or the other |
| TypeAnalyzer.PrintTwoMembers | src/psycopg_hate/type_analyzer.py:63-64 | a two-member union prints as `Union[x, y]` in one order or the other |
| TypeAnalyzer.UnionPrefix | src/psycopg_hate/type_analyzer.py:63-64 | a printed union starts with `Union[` |
| TypeAnalyzer.MixedElementsList | src/psycopg_hate/type_analyzer.py:28-31 | a list with disagreeing elements prints as `list[Union[...` |
| TypeAnalyzer.MixedElementsSet | src/psycopg_hate/type_analyzer.py:44-47 | a set with disagreeing elements prints as `set[Union[...` |
| TypeAnalyzer.ThreeTuple | src/psycopg_hate/type_analyzer.py:72-73 | a three-element tuple prints its elements' annotations in order |
| TypeAnalyzer.TwoTuple | src/psycopg_hate/type_analyzer.py:72-73 | a two-element tuple prints its elements' annotations in order |
| TypeAnalyzer.UniformElements | src/psycopg_hate/type_analyzer.py:28-31 | a list and a set whose elements agree print as `list[s]` and `set[s]` |
| TypeAnalyzer.UniformEntries | src/psycopg_hate/type_analyzer.py:66-67 | a dict whose keys agree and whose values agree prints as `dict[k, v]` |
| TypeAnalyzer.DeepLists | src/psycopg_hate/type_analyzer.py:23-31 | nested one-element lists print one `list[` per level, down to `list[Any]` |
| TypeAnalyzer.DeepDicts | src/psycopg_hate/type_analyzer.py:9-21 | nested one-entry dicts with string keys print one `dict[str, ` per level, down to `dict[Any, Any]` |
| TypeAnalyzer.LeavesAndEmptyContainers | src/psycopg_hate/type_analyzer.py:84-97 | `test_primitive_types` and `test_empty_collections`: each leaf prints its type name; empty containers print `list[Any]`, `dict[Any, Any]`, `tuple[]`, `set[Any]` |
| TypeAnalyzer.HomogeneousListAndSet | src/psycopg_hate/type_analyzer.py:101-104 | `[1, 2, 3]` and `{1, 2, 3}` give `list[int]` and `set[int]` |
| TypeAnalyzer.HomogeneousDict | src/psycopg_hate/type_analyzer.py:102 | `{"a": 1, "b": 2, "c": 3}` gives `dict[str, int]` |
| TypeAnalyzer.HomogeneousTuple | src/psycopg_hate/type_analyzer.py:103 | `(1, 2, 3)` gives `tuple[int, int, int]` |
| TypeAnalyzer.MixedList | src/psycopg_hate/type_analyzer.py:109-114 | `[1, "two", 3.0, True]` gives a string starting with `list[Union[` that names bool, float, int and str |
| TypeAnalyzer.MixedDict | src/psycopg_hate/type_analyzer.py:117-121 | the mixed-value dict gives a string starting with `dict[str, Union[` that names float, int and str |
| TypeAnalyzer.MixedTuple | src/psycopg_hate/type_analyzer.py:125 | `(1, "two", 3.0)` gives exactly `tuple[int, str, float]` |
| TypeAnalyzer.MixedSet | src/psycopg_hate/type_analyzer.py:128-132 | `{1, "two", 3.0}` gives a string starting with `set[Union[` that names float, int and str |
| TypeAnalyzer.MixedKeys | src/psycopg_hate/type_analyzer.py:136-140 | mixed keys give a string starting with `dict[Union` that names int, str and float |
| TypeAnalyzer.NestedList | src/psycopg_hate/type_analyzer.py:144 | `[[1, 2], [3, 4]]` gives `list[list[int]]` |
| TypeAnalyzer.NestedDict | src/psycopg_hate/type_analyzer.py:145 | `{"a": [1, 2], "b": [3, 4]}` gives `dict[str, list[int]]` |
| TypeAnalyzer.NestedTuple | src/psycopg_hate/type_analyzer.py:146 | `([1, 2], [3, 4])` gives `tuple[list[int], list[int]]` |
| TypeAnalyzer.MixedNestedList | src/psycopg_hate/type_analyzer.py:150 | `[1, {"a": 2}]` gives `list[Union[int, dict[str, int]]]` or `list[Union[dict[str, int], int]]`, whichever order the set yields |
| TypeAnalyzer.MixedNestedDict | src/psycopg_hate/type_analyzer.py:151 | `{"a": 1, "b": [2, 3]}` is annotated `dict[str, Union[int, list[int]]]` and prints with the two members in either order |
| TypeAnalyzer.MixedNestedTuple | src/psycopg_hate/type_analyzer.py:152 | `(1, [2, 3], {"a": 4})` gives exactly `tuple[int, list[int], dict[str, int]]` |
| TypeAnalyzer.UsersData | src/psycopg_hate/type_analyzer.py:156-166 | the users structure gives a string starting with `dict[str, list[dict[str` that names str and int |
| TypeAnalyzer.UsersDataHidesFieldName | src/psycopg_hate/type_analyzer.py:162-164 | the field name `name` does not appear in the users structure's printed annotation |
| TypeAnalyzer.ComplexHierarchy | src/psycopg_hate/type_analyzer.py:170-188 | the project structure gives a string starting with `dict[str, Union` that names float, int, str and list |
| TypeAnalyzer.DeepNestingLists | src/psycopg_hate/type_analyzer.py:192 | `[[[[[]]]]]` gives `list[list[list[list[list[Any]]]]]` |
| TypeAnalyzer.DeepNestingDicts | src/psycopg_hate/type_analyzer.py:193 | `{"a": {"b": {"c": {"d": {}}}}}` gives `dict[str, dict[str, dict[str, dict[str, dict[Any, Any]]]]]` |
| TypeAnalyzer.NestedUnions | src/psycopg_hate/type_analyzer.py:194 | `[1, [2, [3, [4]]]]` is annotated as a list of `Union[int, list[Union[int, list[Union[int, list[int]]]]]]` |
| TypeAnalyzer.MixedEmptyContainers | src/psycopg_hate/type_analyzer.py:196-201 | `[{}, [], (), set()]` gives a string starting with `list[Union` that contains `dict[Any, Any]`, `list[Any]`, `tuple[]` and `set[Any]` |
| ProblematicColumns.DropNaAppend | src/psycopg_hate/identify_problematic_columns.py:115 | `dropna` keeps the non-null cells in order, slice by slice |
| ProblematicColumns.DropNaAllNull | src/psycopg_hate/identify_problematic_columns.py:115 | all-null cells leave nothing after `dropna` |
| ProblematicColumns.SampleIsFirstNonNull | src/psycopg_hate/identify_problematic_columns.py:115 | the sample is the first non-null cell, whatever follows it |
| ProblematicColumns.AllNullNeverReported | src/psycopg_hate/identify_problematic_columns.py:115-117 | a column with no non-null cell has no sample and is never reported |
| ProblematicColumns.LaterCellsIgnored | src/psycopg_hate/adapt_dict_now.py:115-117 | cells after the sample are never looked at: appending rows does not change a column's verdict |
| ProblematicColumns.AnyDictItemIff | src/psycopg_hate/identify_problematic_columns.py:120 | the filtered `any` is exactly "some element is a dict" |
| ProblematicColumns.AnyIterableDictIff | src/psycopg_hate/identify_problematic_columns.py:125 | the `hasattr(.., '__iter__')` filter keeps every dict, so the test is "some sub-element is a dict" |
| ProblematicColumns.ScanForNestedDict | src/psycopg_hate/identify_problematic_columns.py:123-128 | the flag loop sets the flag exactly when some element is a list holding a dict |
| ProblematicColumns.ClassifyMeaning | src/psycopg_hate/identify_problematic_columns.py:118-130 | `Dictionary` exactly for a dict. `List containing dictionaries` exactly for a list with a dict element. The nested reason exactly for a list with no dict element but a list element holding a dict. |
| ProblematicColumns.FineSamples | src/psycopg_hate/adapt_dict_now.py:117-130 | scalars, strings, other values and empty lists are never reported |
| ProblematicColumns.PlainNestedListsFine | src/psycopg_hate/adapt_dict_now.py:122-130 | a list of lists none of which holds a dict is not reported |
| ProblematicColumns.IdentifyProblematicColumns | src/psycopg_hate/identify_problematic_columns.py:110-132 | the column loop returns exactly the concatenated per-column verdicts |
| ProblematicColumns.ReportAppend | src/psycopg_hate/identify_problematic_columns.py:113-130 | the result follows column order: the result for consecutive column slices is the concatenation of their results |
| ProblematicColumns.ReportMembers | src/psycopg_hate/adapt_dict_now.py:113-130 | a pair is in the result exactly when some column yields it |
| ProblematicColumns.ReportShape | src/psycopg_hate/adapt_dict_now.py:111-132 | at most one pair per column, each naming a column and one of the three reasons |
| ProblematicColumns.ReportLength | src/psycopg_hate/identify_problematic_columns.py:111-132 | the result is no longer than the list of columns |
| ProblematicColumns.ReportNamesDistinct | src/psycopg_hate/identify_problematic_columns.py:111-132 | with distinct column labels every column is listed at most once |
| ProblematicColumns.DictColumnAndEmptyColumn | src/psycopg_hate/identify_problematic_columns.py:110-132 | a dict column after a null row is reported as `Dictionary`; an all-null column is not |

## Left out

- ANSI colour codes are dropped from every printed line. They are terminal styling only.
- The System Info and Python Path sections read the interpreter and the host (`platform`, the working directory, `sys.path`). Their lines are a parameter, `envLines`.
- `os.sep` is fixed to `/` and `os.path.join` follows POSIX rules. Windows paths (`\` and drive letters) are not modelled.
- `repr`, `str`, `dir`, `len`, `isinstance`, `hasattr` and `issubclass` on live objects are not computed. Their answers are fields of the plain-data stand-ins.
- Of the exceptions the analysers' `try` blocks can catch, only a failing `repr` of the chosen value is modelled. A failing `str(exc_value)`, `str(k)` or `dir` is not, because these fail only for objects with broken dunder methods.
- PyValue.length stands for a `len` that succeeds. A value that has `__len__` but whose `len` raises (a class object that defines `__len__`, a 0-d numpy array) is not modelled. For such a value the IndexError analyser prints `Error analyzing collection: ...` and goes on scanning.
- A failing `repr` inside `_get_frame_info` is modelled. The message text `e` is taken as given, since `str(e)` of that exception is not computed.
- Exceptions raised by the panels themselves are not modelled, except the `KeyError` on a partial dict. The printing calls do not raise for the strings modelled here.
- `linecache`'s process-wide cache is not modelled. A file's lines are given directly.
- `sys.__excepthook__` is not modelled. It writes the standard traceback to stderr; the model counts its calls.
- The pytest runner in `type_analyzer.py` (lines 1 and 203-205) is not modelled.
- The `str(type_anno)` fallback at line 78 of `type_analyzer.py` is not modelled. No annotation the inference builds reaches it.
- TypeAnalyzer.Annotation: a leaf's class is known only by its `__name__`. Two different classes with the same name, such as two `Point` classes from different modules, become one union member, where Python's `set` of classes keeps both.
- Text.PyStrRepr: non-printable characters at or above U+0100 (U+200B, say) are written as they are, where `repr` writes `\uNNNN` or `\UNNNNNNNN`. Telling them apart needs the Unicode character database. Below U+0100 the `\xNN` form is modelled.
- Text.PyStrReprRoundTrip: its clause that the output holds no non-printable character covers characters below U+0100 only, for the same reason.
- Python's equality between `1` and `True` inside a set is not modelled. A set is given by its elements as iterated.
- TypeAnalyzer.TypeToString: union members are printed in the order a `set` yields them, which the model leaves unspecified. The function is ghost.
- TypeAnalyzer.MixedNestedList: states that the expected string comes out in one of its two orders, not which one. The source expects one exact order that Python's set iteration does not guarantee.
- TypeAnalyzer.MixedNestedDict: states the annotation exactly and the printed string in either member order, for the same reason.
- TypeAnalyzer.NestedUnions: states the annotation exactly rather than the printed string. Its three unions may each print their members in either order.
- ProblematicColumns: pandas is not modelled. A null is `None` in the cell sequence, `dropna` keeps the other cells, and duplicate column labels are treated as separate columns.
- ProblematicColumns: the module-level demo code of both scripts is not modelled. It consists of random DataFrame construction and prints.

/**
 * The exception-details panel: the lines `_print_exception_details` prints for
 * each kind of analyser dict, and the lookup error it runs into on a partial
 * dict.
 */
module DetailsPanel {
  import opened Wrappers
  import opened Text
  import opened Extractors
  import PyModel

  /** The lines printed, and the key whose lookup raised `KeyError` part-way, if one did */
  datatype Rendered = Rendered(lines: seq<string>, missing: Option<string>)

  /** The panel heading, from the dict's `type` entry */
  function Heading(d: Details): string {
    "\n------ " + d.Label() + " Details ------"
  }

  /** `line.split('[')[1].split(']')[0]`, or the fallback when the line has no '[' (the `IndexError` the `except` catches) */
  function InvalidIndexLine(line: string): string {
    if '[' in line then
      SplitFields(line, '[');
      "Invalid index: " + SplitOn(SplitOn(line, '[')[1], ']')[0]
    else "Invalid index: Unparseable"
  }

  /** A line `p[idx]...` with no '[' before the bracket and none of '[' or ']' inside it reports `idx` */
  lemma InvalidIndexOfSubscript(p: string, idx: string, rest: string)
    requires '[' !in p && '[' !in idx && ']' !in idx
    ensures InvalidIndexLine(p + "[" + idx + "]" + rest) == "Invalid index: " + idx
  {
    var line := p + "[" + idx + "]" + rest;
    assert line[|p|] == '[';
    SplitFields(line, '[');
    var j := IndexOf(line, '[');
    assert line[..|p|] == p;
    assert j == |p|;
    var field := SplitOn(line, '[')[1];
    assert After(line, '[') == idx + "]" + rest;
    var b := Before(After(line, '['), '[');
    assert StartsWith(idx + "]" + rest, b);
    assert StartsWith(b, idx) by {
      assert (idx + "]" + rest)[..|idx|] == idx;
    }
    SplitFields(field, ']');
    var f := Before(field, ']');
    assert field[..|idx|] == idx;
    if |field| > |idx| {
      assert field[|idx|] == ']';
    }
    assert f == idx;
  }

  /** The attribute lines: the joined names, and the overflow line when more than 100 were counted */
  function AttributeLines(available: Option<seq<string>>, count: Option<nat>): seq<string> {
    match available
    case None => []
    case Some(attrs) =>
      ["Available attributes: " + JoinStrings(", ", attrs)]
        + (if count.GetOr(0) > 100 then ["  ... and " + NatToString(count.GetOr(0) - 100) + " more"] else [])
  }

  /** What `_print_exception_details` prints for a dict; `msg` is `str(exc_value)`, `line` the stripped fault line */
  function Render(d: Details, msg: string, line: string): Rendered {
    match d
    case KeyFound(dictionary, value, missingKey, keys, similar) =>
      Rendered([Heading(d),
                "Dictionary: " + dictionary + " = " + value,
                "Missing key: " + missingKey,
                "Available keys: " + ListRepr(keys)]
               + (match similar case None => [] case Some(s) => ["Possible similar keys: " + ListRepr(s)]),
               None)
    case KeyPartial(_) => Rendered([Heading(d)], Some("dict_value"))
    case CollectionFound(_, collection, value, length, valid) =>
      Rendered([Heading(d), "Collection: " + collection + " = " + value, "Length: " + NatToString(length)]
               + (match valid case None => [] case Some(v) => ["Valid indices: " + v])
               + [InvalidIndexLine(line)],
               None)
    case CollectionPartial(_, _) => Rendered([Heading(d)], Some("collection_value"))
    case ObjectFound(obj, value, typeName, _, available, count, similar) =>
      Rendered([Heading(d), "Object: " + obj + " = " + value, "Type: " + typeName]
               + AttributeLines(available, count)
               + (match similar case None => [] case Some(s) => ["Possible similar attributes: " + StrListRepr(s)])
               + ["Missing Attribute:" + msg],
               None)
    case ObjectPartial(_) => Rendered([Heading(d)], Some("object_value"))
    case NameFound(v, similar) =>
      Rendered([Heading(d), "Undefined variable: '" + v + "'"]
               + (match similar case None => [] case Some(s) => ["Similar variable names: " + StrListRepr(s)]),
               None)
  }

  /** Whether a dict lacks the value entry the panel reads: the one `repr` never filled in */
  predicate IsPartial(d: Details) {
    d.KeyPartial? || d.CollectionPartial? || d.ObjectPartial?
  }

  /**
   * The panel opens with the heading; it stops with a lookup error exactly
   * for a partial dict, after printing nothing but the heading, and names the
   * value entry that is missing.
   */
  lemma RenderOutcome(d: Details, msg: string, line: string)
    ensures var r := Render(d, msg, line);
            && |r.lines| >= 1 && r.lines[0] == Heading(d)
            && (r.missing.Some? <==> IsPartial(d))
            && (IsPartial(d) ==> |r.lines| == 1)
            && (d.KeyPartial? ==> r.missing == Some("dict_value"))
            && (d.CollectionPartial? ==> r.missing == Some("collection_value"))
            && (d.ObjectPartial? ==> r.missing == Some("object_value"))
  {
  }

  /**
   * For a value with visible attribute names `attrs`, the attribute lines show
   * the first 100 of them (none when there are none) and then
   * "... and N more" with N the rest exactly when there are more than 100.
   */
  lemma AttributeOverflow(l: PyModel.Local, t: string, attr: string)
    ensures var attrs := VisibleAttrs(l.value.dirNames);
            var d := ObjectFoundOf(l, t, attr);
            var lines := AttributeLines(d.availableAttributes, d.attributesCount);
            && (attrs == [] ==> lines == [])
            && (attrs != [] ==> lines[0] == "Available attributes: " + JoinStrings(", ", attrs[..Min(100, |attrs|)]))
            && (|attrs| > 100 ==> |lines| == 2 && lines[1] == "  ... and " + NatToString(|attrs| - 100) + " more")
            && (0 < |attrs| <= 100 ==> |lines| == 1)
  {
    ObjectFoundShape(l, t, attr);
  }

  /** The worked example: 150 visible attribute names show the first 100 and "  ... and 50 more" */
  lemma HundredFiftyAttributes(l: PyModel.Local, t: string, attr: string)
    requires |VisibleAttrs(l.value.dirNames)| == 150
    ensures var d := ObjectFoundOf(l, t, attr);
            var lines := AttributeLines(d.availableAttributes, d.attributesCount);
            && |d.availableAttributes.value| == 100
            && lines[1] == "  ... and 50 more"
  {
    AttributeOverflow(l, t, attr);
    ObjectFoundShape(l, t, attr);
    assert NatToString(50) == "50" by {
      assert NatToString(5) == "5";
    }
  }
}

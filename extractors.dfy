/**
 * The per-exception-class analysers: each scans the fault frame's locals for
 * the variable the failing line talks about and gathers what the details
 * panel shows about it, and the dispatcher that picks the analyser by the
 * exception's class.
 */
module Extractors {
  import opened Wrappers
  import opened Text
  import opened Seqs
  import opened PyModel
  import FrameInfo

  /**
   * The `exception_details` dict an analyser returns, by the keys it holds.
   * A `...Partial` dict is what is left when `repr` of the chosen value raised
   * after `type` and the variable's name had been stored.
   */
  datatype Details =
    | KeyFound(dictionary: string, dictValue: string, missingKey: string,
               availableKeys: seq<string>, similarKeys: Option<seq<string>>)
    | KeyPartial(dictionary: string)
    | CollectionFound(kind: string, collection: string, collectionValue: string,
                      length: nat, validIndices: Option<string>)
    | CollectionPartial(kind: string, collection: string)
    | ObjectFound(obj: string, objectValue: string, objectType: string, missingAttribute: string,
                  availableAttributes: Option<seq<string>>, attributesCount: Option<nat>,
                  similarAttributes: Option<seq<string>>)
    | ObjectPartial(obj: string)
    | NameFound(undefinedVariable: string, similarVariables: Option<seq<string>>)
  {
    /** The dict's `type` entry */
    function Label(): string {
      match this
      case KeyFound(_, _, _, _, _) => "KeyError"
      case KeyPartial(_) => "KeyError"
      case CollectionFound(kind, _, _, _, _) => kind
      case CollectionPartial(kind, _) => kind
      case ObjectFound(_, _, _, _, _, _, _) => "AttributeError"
      case ObjectPartial(_) => "AttributeError"
      case NameFound(_, _) => "NameError"
    }
  }

  /** What an analyser produces: the dict (None when empty) and the lines it printed on the way */
  datatype Scan = Scan(details: Option<Details>, notes: seq<string>)

  /**
   * One analyser's loop over `f_locals`: which locals it tries, the dict it
   * builds from a local and its repr, the dict left when the repr raises, and
   * the word its error line uses.
   */
  datatype Probe = Probe(
    matches: Local -> bool,
    found: (Local, string) -> Details,
    partial: string -> Details,
    what: string)

  /** The line printed when analysing a value raised */
  function Note(what: string, error: string): string {
    "Error analyzing " + what + ": " + error
  }

  /**
   * The scan from the current position with `acc` the dict so far: a matching
   * local whose repr works ends the loop (`break`); one whose repr raises
   * leaves a partial dict and an error line, and the loop goes on.
   */
  function ScanFrom(locals: seq<Local>, probe: Probe, acc: Option<Details>): Scan
    decreases |locals|
  {
    if locals == [] then Scan(acc, [])
    else
      var l := locals[0];
      if !probe.matches(l) then ScanFrom(locals[1..], probe, acc)
      else
        match l.value.repr
        case Printed(t) => Scan(Some(probe.found(l, t)), [])
        case ReprFailed(e) =>
          var rest := ScanFrom(locals[1..], probe, Some(probe.partial(l.name)));
          Scan(rest.details, [Note(probe.what, e)] + rest.notes)
  }

  /** The error lines of the matching locals whose repr raises, in order */
  function FailNotes(locals: seq<Local>, probe: Probe): seq<string>
    decreases |locals|
  {
    if locals == [] then []
    else
      var l := locals[0];
      (if probe.matches(l) && l.value.repr.ReprFailed? then [Note(probe.what, l.value.repr.error)] else [])
        + FailNotes(locals[1..], probe)
  }

  /**
   * When local `j` is the first matching one whose repr works, the dict is
   * built from it and the error lines are those of the matching locals before it.
   */
  lemma {:induction false} ScanFirstPrinted(locals: seq<Local>, probe: Probe, acc: Option<Details>, j: nat)
    requires j < |locals| && probe.matches(locals[j]) && locals[j].value.repr.Printed?
    requires forall k :: 0 <= k < j && probe.matches(locals[k]) ==> locals[k].value.repr.ReprFailed?
    ensures ScanFrom(locals, probe, acc)
         == Scan(Some(probe.found(locals[j], locals[j].value.repr.text)), FailNotes(locals[..j], probe))
    decreases j
  {
    if j > 0 {
      var l := locals[0];
      var next := if probe.matches(l) then Some(probe.partial(l.name)) else acc;
      ScanFirstPrinted(locals[1..], probe, next, j - 1);
      assert locals[1..][..j - 1] == locals[..j][1..];
    }
  }

  /**
   * When no matching local has a working repr, every matching one leaves its
   * error line; the dict is the partial one of the last matching local, or
   * the starting one when none matches.
   */
  lemma {:induction false} ScanNonePrinted(locals: seq<Local>, probe: Probe, acc: Option<Details>)
    requires forall k :: 0 <= k < |locals| && probe.matches(locals[k]) ==> locals[k].value.repr.ReprFailed?
    ensures ScanFrom(locals, probe, acc).notes == FailNotes(locals, probe)
    ensures (forall k :: 0 <= k < |locals| ==> !probe.matches(locals[k])) ==> ScanFrom(locals, probe, acc).details == acc
    ensures forall k :: 0 <= k < |locals| && probe.matches(locals[k])
                        && (forall k' :: k < k' < |locals| ==> !probe.matches(locals[k']))
                        ==> ScanFrom(locals, probe, acc).details == Some(probe.partial(locals[k].name))
    decreases |locals|
  {
    if locals != [] {
      var l := locals[0];
      var next := if probe.matches(l) then Some(probe.partial(l.name)) else acc;
      ScanNonePrinted(locals[1..], probe, next);
      forall k | 0 <= k < |locals| && probe.matches(locals[k])
                 && (forall k' :: k < k' < |locals| ==> !probe.matches(locals[k']))
        ensures ScanFrom(locals, probe, acc).details == Some(probe.partial(locals[k].name))
      {
        if k > 0 {
          assert locals[1..][k - 1] == locals[k];
          forall k' | k - 1 < k' < |locals| - 1 ensures !probe.matches(locals[1..][k']) {
            assert locals[1..][k'] == locals[k' + 1];
          }
        } else {
          forall k' | 0 <= k' < |locals| - 1 ensures !probe.matches(locals[1..][k']) {
            assert locals[1..][k'] == locals[k' + 1];
          }
        }
      }
    }
  }

  /** Every dict a scan yields carries the label its probe gives every dict it builds */
  lemma {:induction false} ScanLabel(locals: seq<Local>, probe: Probe, acc: Option<Details>, lbl: string)
    requires ProbeLabelled(probe, lbl)
    requires acc.Some? ==> acc.value.Label() == lbl
    ensures var d := ScanFrom(locals, probe, acc).details; d.Some? ==> d.value.Label() == lbl
    decreases |locals|
  {
    if locals != [] {
      var l := locals[0];
      var next := if probe.matches(l) then Some(probe.partial(l.name)) else acc;
      ScanLabel(locals[1..], probe, next, lbl);
    }
  }

  /** The loop shared by the three scanning analysers: `for name, val in frame.f_locals.items()` with `try`, `break` and the error line */
  method ScanLocals(locals: seq<Local>, probe: Probe) returns (details: Option<Details>, notes: seq<string>)
    ensures Scan(details, notes) == ScanFrom(locals, probe, None)
  {
    details, notes := None, [];
    var i := 0;
    while i < |locals|
      invariant 0 <= i <= |locals|
      invariant var rest := ScanFrom(locals[i..], probe, details);
                ScanFrom(locals, probe, None) == Scan(rest.details, notes + rest.notes)
    {
      var l := locals[i];
      assert locals[i..][1..] == locals[i + 1..];
      if probe.matches(l) {
        match l.value.repr {
          case Printed(t) =>
            details := Some(probe.found(l, t));
            return;
          case ReprFailed(e) =>
            notes := notes + [Note(probe.what, e)];
            details := Some(probe.partial(l.name));
        }
      }
      i := i + 1;
    }
  }

  // ---- KeyError ----

  /** `str(exc_value).strip("'\"")`: the missing key as text */
  function KeyText(msg: string): string {
    Strip(msg, {'\'', '"'})
  }

  /** The keys whose text is non-empty and contains, or is contained in, the missing key */
  function SimilarKeys(keys: seq<DictKey>, key: string): seq<DictKey> {
    Filter(keys, (k: DictKey) => k.str != "" && key != "" && Similar(k.str, key))
  }

  /** How a list of keys prints: the repr of each */
  function KeyReprs(keys: seq<DictKey>): (rs: seq<string>)
    ensures |rs| == |keys| && forall i :: 0 <= i < |keys| ==> rs[i] == keys[i].repr
  {
    seq(|keys|, i requires 0 <= i < |keys| => keys[i].repr)
  }

  /** The dict built for a dictionary local `l` with repr `t` */
  function KeyFoundOf(l: Local, t: string, key: string): Details {
    var keys := l.value.dictKeys.GetOr([]);
    var similar := SimilarKeys(keys, key);
    KeyFound(l.name, t, PyStrRepr(key), KeyReprs(keys), if similar == [] then None else Some(KeyReprs(similar)))
  }

  /** The KeyError analyser: dictionaries named in a non-empty failing line */
  function KeyProbe(msg: string, line: string): Probe {
    var key := KeyText(msg);
    Probe((l: Local) => l.value.dictKeys.Some? && line != "" && Contains(line, l.name),
          (l: Local, t: string) => KeyFoundOf(l, t, key),
          (n: string) => KeyPartial(n),
          "dictionary")
  }

  /** A key is suggested exactly when both texts are non-empty and one contains the other */
  lemma SimilarKeysExact(keys: seq<DictKey>, key: string, k: DictKey)
    ensures k in SimilarKeys(keys, key) <==> k in keys && k.str != "" && key != "" && Similar(k.str, key)
  {
    if k in keys && k.str != "" && key != "" && Similar(k.str, key) {
      FilterComplete(keys, (k: DictKey) => k.str != "" && key != "" && Similar(k.str, key), k);
    }
  }

  /** With an empty failing line the KeyError analyser finds nothing and prints nothing */
  lemma {:induction false} KeyErrorNeedsLine(locals: seq<Local>, msg: string)
    ensures ScanFrom(locals, KeyProbe(msg, ""), None) == Scan(None, [])
    decreases |locals|
  {
    if locals != [] {
      KeyErrorNeedsLine(locals[1..], msg);
    }
  }

  // ---- IndexError and TypeError ----

  /** The `valid_indices` text for a list or tuple of length `n` */
  function ValidIndices(n: nat): string {
    "0 to " + (if n > 0 then NatToString(n - 1) else "N/A (empty)")
  }

  /** The printed upper bound reads back as the last valid index, `n - 1` */
  lemma ValidIndicesBound(n: nat)
    ensures StartsWith(ValidIndices(n), "0 to ")
    ensures n > 0 ==> DigitsValue(ValidIndices(n)[5..]) == n - 1
    ensures n == 0 ==> ValidIndices(n)[5..] == "N/A (empty)"
  {
    if n > 0 {
      assert ValidIndices(n)[5..] == NatToString(n - 1);
      NatToStringRoundTrip(n - 1);
    }
  }

  /** The dict built for a sized local `l` with repr `t` */
  function CollectionFoundOf(kind: string, l: Local, t: string): Details {
    var n := l.value.length.GetOr(0);
    CollectionFound(kind, l.name, t, n, if l.value.isListOrTuple then Some(ValidIndices(n)) else None)
  }

  /** The label of the collection analyser's dict: "IndexError" for an IndexError subclass, otherwise "TypeError" */
  function CollectionLabel(exc: ExcType): string {
    if exc.isIndexError then "IndexError" else "TypeError"
  }

  /** The IndexError/TypeError analyser: sized values named in the failing line */
  function CollectionProbe(exc: ExcType, line: string): Probe {
    var kind := CollectionLabel(exc);
    Probe((l: Local) => l.value.length.Some? && Contains(line, l.name),
          (l: Local, t: string) => CollectionFoundOf(kind, l, t),
          (n: string) => CollectionPartial(kind, n),
          "collection")
  }

  // ---- AttributeError and NameError ----

  /** `str(exc_value).split("'")[1]` when the message holds a quote, else None */
  function QuotedName(msg: string): (r: Option<string>)
    ensures r.Some? <==> '\'' in msg
    ensures r.Some? ==> r.value == Before(After(msg, '\''), '\'')
  {
    if '\'' in msg then
      SplitFields(msg, '\'');
      Some(SplitOn(msg, '\'')[1])
    else None
  }

  /** The attribute names of `dir(val)` without those starting with "__" */
  function VisibleAttrs(dirNames: seq<string>): seq<string> {
    Filter(dirNames, (a: string) => !FrameInfo.IsDunder(a))
  }

  function Min(a: nat, b: nat): nat {
    if a <= b then a else b
  }

  /** The dict built for a local `l` with repr `t` when attribute `attr` is missing */
  function ObjectFoundOf(l: Local, t: string, attr: string): Details {
    var attrs := VisibleAttrs(l.value.dirNames);
    var similar := Filter(attrs, (a: string) => Similar(attr, a));
    ObjectFound(l.name, t, l.value.typeName, attr,
                if attrs == [] then None else Some(attrs[..Min(100, |attrs|)]),
                if attrs != [] && |attrs| > 20 then Some(|attrs|) else None,
                if similar == [] then None else Some(similar))
  }

  /** The AttributeError analyser's loop: any local named in the failing line */
  function AttributeProbe(attr: string, line: string): Probe {
    Probe((l: Local) => Contains(line, l.name),
          (l: Local, t: string) => ObjectFoundOf(l, t, attr),
          (n: string) => ObjectPartial(n),
          "object")
  }

  /** `_get_exception_details_AttributeError`: scans only when the message names a non-empty attribute */
  function AttributeDetails(msg: string, locals: seq<Local>, line: string): Scan {
    match QuotedName(msg)
    case None => Scan(None, [])
    case Some(attr) => if attr == "" then Scan(None, []) else ScanFrom(locals, AttributeProbe(attr, line), None)
  }

  /**
   * The attribute dict: available attributes are the first 100 names of
   * `dir(val)` not starting with "__" (present only when there is one), the
   * count is present exactly when there are more than 20 such names, and the
   * suggestions are the visible names similar to the missing one.
   */
  lemma ObjectFoundShape(l: Local, t: string, attr: string)
    ensures var d := ObjectFoundOf(l, t, attr);
            var attrs := VisibleAttrs(l.value.dirNames);
            && d.ObjectFound? && d.obj == l.name && d.objectValue == t
            && d.objectType == l.value.typeName && d.missingAttribute == attr
            && (d.availableAttributes.Some? <==> attrs != [])
            && (d.availableAttributes.Some? ==>
                  |d.availableAttributes.value| == Min(100, |attrs|)
                  && d.availableAttributes.value == attrs[..|d.availableAttributes.value|])
            && (forall a :: a in attrs ==> a in l.value.dirNames && !FrameInfo.IsDunder(a))
            && (d.attributesCount.Some? <==> |attrs| > 20)
            && (d.attributesCount.Some? ==> d.attributesCount.value == |attrs|)
            && (d.similarAttributes.Some? <==> exists a :: a in attrs && Similar(attr, a))
            && (forall a :: a in d.similarAttributes.GetOr([]) <==> a in attrs && Similar(attr, a))
  {
    var attrs := VisibleAttrs(l.value.dirNames);
    var similar := Filter(attrs, (b: string) => Similar(attr, b));
    forall a | a in attrs && Similar(attr, a)
      ensures a in similar
    {
      FilterComplete(attrs, (b: string) => Similar(attr, b), a);
    }
    if similar != [] {
      assert similar[0] in attrs && Similar(attr, similar[0]);
    }
  }

  /** A message that opens with a quoted word yields that word, whatever follows */
  lemma QuotedFirstWord(w: string, rest: string)
    requires '\'' !in w
    ensures QuotedName("'" + w + "'" + rest) == Some(w)
  {
    var msg := "'" + w + "'" + rest;
    var tail := After(msg, '\'');
    assert tail == w + "'" + rest;
    var j := IndexOf(tail, '\'');
    assert tail[..|w|] == w && tail[|w|] == '\'';
    assert j == |w|;
  }

  /** Python's message for a missing attribute on an instance of a built-in type */
  function MissingAttributeMessage(typeName: string, attr: string): string {
    "'" + typeName + "' object has no attribute '" + attr + "'"
  }

  /**
   * For the built-in message the analyser takes the TYPE name as the missing
   * attribute: `'dict' object has no attribute 'x'` yields "dict", not "x".
   */
  lemma MissingAttributeQuirk(typeName: string, attr: string)
    requires '\'' !in typeName
    ensures QuotedName(MissingAttributeMessage(typeName, attr)) == Some(typeName)
  {
    var rest := " object has no attribute '" + attr + "'";
    assert MissingAttributeMessage(typeName, attr) == "'" + typeName + "'" + rest;
    QuotedFirstWord(typeName, rest);
  }

  /** The names of the locals, in order */
  function LocalNames(locals: seq<Local>): (names: seq<string>)
    ensures |names| == |locals| && forall i :: 0 <= i < |locals| ==> names[i] == locals[i].name
  {
    seq(|locals|, i requires 0 <= i < |locals| => locals[i].name)
  }

  /** `_get_exception_details_NameError`: the quoted name and the locals similar to it */
  function NameDetails(msg: string, locals: seq<Local>): Scan {
    match QuotedName(msg)
    case None => Scan(None, [])
    case Some(v) =>
      if v == "" then Scan(None, [])
      else
        var similar := Filter(LocalNames(locals), (n: string) => Similar(v, n));
        Scan(Some(NameFound(v, if similar == [] then None else Some(similar))), [])
  }

  /** A quoted non-empty name gets a NameError dict whose suggestions are exactly the locals (dunder names included) similar to it */
  lemma NameSuggestionsExact(msg: string, locals: seq<Local>, v: string, name: string)
    requires QuotedName(msg) == Some(v) && v != ""
    ensures var s := NameDetails(msg, locals);
            && s.notes == [] && s.details.Some? && s.details.value.NameFound?
            && s.details.value.undefinedVariable == v
            && var listed := s.details.value.similarVariables.GetOr([]);
               (name in listed <==> name in LocalNames(locals) && Similar(v, name))
  {
    var names := LocalNames(locals);
    if name in names && Similar(v, name) {
      FilterComplete(names, (n: string) => Similar(v, n), name);
    }
  }

  /** `_get_exception_details`: the first analyser whose class the exception is a subclass of */
  function ExceptionDetails(exc: ExcType, msg: string, locals: seq<Local>, line: string): Scan {
    if exc.isKeyError then ScanFrom(locals, KeyProbe(msg, line), None)
    else if exc.isIndexError || exc.isTypeError then ScanFrom(locals, CollectionProbe(exc, line), None)
    else if exc.isAttributeError then AttributeDetails(msg, locals, line)
    else if exc.isNameError then NameDetails(msg, locals)
    else Scan(None, [])
  }

  /** `_get_exception_details` as the hook runs it, with the analysers' loops */
  method GetExceptionDetails(exc: ExcType, msg: string, locals: seq<Local>, line: string)
    returns (details: Option<Details>, notes: seq<string>)
    ensures Scan(details, notes) == ExceptionDetails(exc, msg, locals, line)
  {
    if exc.isKeyError {
      details, notes := ScanLocals(locals, KeyProbe(msg, line));
    } else if exc.isIndexError || exc.isTypeError {
      details, notes := ScanLocals(locals, CollectionProbe(exc, line));
    } else if exc.isAttributeError {
      var attr := QuotedName(msg);
      if attr.Some? && attr.value != "" {
        details, notes := ScanLocals(locals, AttributeProbe(attr.value, line));
      } else {
        details, notes := None, [];
      }
    } else if exc.isNameError {
      var s := NameDetails(msg, locals);
      details, notes := s.details, s.notes;
    } else {
      details, notes := None, [];
    }
  }

  /** The expected dispatch label: the first of the tested classes the exception belongs to */
  function ExpectedLabel(exc: ExcType): string {
    if exc.isKeyError then "KeyError"
    else if exc.isIndexError then "IndexError"
    else if exc.isTypeError then "TypeError"
    else if exc.isAttributeError then "AttributeError"
    else "NameError"
  }

  /** A probe whose dicts, complete or partial, all carry one label */
  ghost predicate ProbeLabelled(probe: Probe, lbl: string) {
    (forall l, t :: probe.found(l, t).Label() == lbl) && (forall n :: probe.partial(n).Label() == lbl)
  }

  lemma KeyProbeLabelled(msg: string, line: string)
    ensures ProbeLabelled(KeyProbe(msg, line), "KeyError")
  {
  }

  lemma CollectionProbeLabelled(exc: ExcType, line: string)
    ensures ProbeLabelled(CollectionProbe(exc, line), CollectionLabel(exc))
  {
  }

  lemma AttributeProbeLabelled(attr: string, line: string)
    ensures ProbeLabelled(AttributeProbe(attr, line), "AttributeError")
  {
  }

  /** The dict's `type` entry names the first tested class the exception belongs to */
  lemma DetailsLabel(exc: ExcType, msg: string, locals: seq<Local>, line: string)
    ensures var d := ExceptionDetails(exc, msg, locals, line).details;
            d.Some? ==> d.value.Label() == ExpectedLabel(exc)
  {
    var s := ExceptionDetails(exc, msg, locals, line);
    if exc.isKeyError {
      assert s == ScanFrom(locals, KeyProbe(msg, line), None);
      KeyProbeLabelled(msg, line);
      ScanLabel(locals, KeyProbe(msg, line), None, "KeyError");
    } else if exc.isIndexError || exc.isTypeError {
      assert s == ScanFrom(locals, CollectionProbe(exc, line), None);
      CollectionProbeLabelled(exc, line);
      ScanLabel(locals, CollectionProbe(exc, line), None, CollectionLabel(exc));
    } else if exc.isAttributeError {
      assert s == AttributeDetails(msg, locals, line);
      AttributeDetailsLabel(msg, locals, line);
    } else if exc.isNameError {
      assert s == NameDetails(msg, locals);
    }
  }

  lemma AttributeDetailsLabel(msg: string, locals: seq<Local>, line: string)
    ensures var d := AttributeDetails(msg, locals, line).details;
            d.Some? ==> d.value.Label() == "AttributeError"
  {
    var attr := QuotedName(msg);
    if attr.Some? && attr.value != "" {
      AttributeProbeLabelled(attr.value, line);
      ScanLabel(locals, AttributeProbe(attr.value, line), None, "AttributeError");
    }
  }

  /** An exception of none of the tested classes gets no dict and no error lines */
  lemma NoDetailsForOtherClasses(exc: ExcType, msg: string, locals: seq<Local>, line: string)
    requires !(exc.isKeyError || exc.isIndexError || exc.isTypeError || exc.isAttributeError || exc.isNameError)
    ensures ExceptionDetails(exc, msg, locals, line) == Scan(None, [])
  {
  }
}

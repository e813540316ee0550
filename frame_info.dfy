/**
 * The frame-state panel: the fault frame's locals sorted into modules,
 * functions and variables by the start of their `repr`, and printed as three
 * sections (module names, function names, then `name = value` lines in name
 * order with each value cut to 500 characters).
 */
module FrameInfo {
  import opened Wrappers
  import opened Text
  import opened PyModel

  /** An insertion-ordered Python dict from names to repr texts */
  type Entries = seq<(string, string)>

  datatype Bucket = Modules | Functions | Variables

  datatype Buckets = Buckets(modules: Entries, functions: Entries, variables: Entries) {
    function Get(b: Bucket): Entries {
      match b
      case Modules => modules
      case Functions => functions
      case Variables => variables
    }
  }

  /** Names excluded from the panel: the reserved double-underscore ones */
  predicate IsDunder(name: string) {
    StartsWith(name, "__")
  }

  /** The text stored for a value: its repr, or a placeholder naming the error repr raised */
  function StoredRepr(v: PyValue): string {
    match v.repr
    case Printed(t) => t
    case ReprFailed(e) => "<unprintable: " + e + ">"
  }

  /** The bucket a value belongs in, chosen by the start of its repr; a failed repr is a variable */
  function BucketOf(v: PyValue): Bucket {
    match v.repr
    case ReprFailed(_) => Variables
    case Printed(t) =>
      if StartsWith(t, "<module") then Modules
      else if StartsWith(t, "<function") || StartsWith(t, "<bound method") then Functions
      else Variables
  }

  function Keys(d: Entries): (ks: seq<string>)
    ensures |ks| == |d| && forall k :: 0 <= k < |d| ==> ks[k] == d[k].0
  {
    if d == [] then [] else [d[0].0] + Keys(d[1..])
  }

  /** Python `d[k]` when present */
  function Lookup(d: Entries, k: string): (r: Option<string>)
    ensures r.None? <==> k !in Keys(d)
  {
    if d == [] then None else if d[0].0 == k then Some(d[0].1) else Lookup(d[1..], k)
  }

  predicate KeysDistinct(d: Entries) {
    forall i, j :: 0 <= i < j < |d| ==> d[i].0 != d[j].0
  }

  /** Python `d[k] = v`: replaces the value in place when `k` is present, otherwise appends */
  function Put(d: Entries, k: string, v: string): (r: Entries)
    ensures Lookup(d, k).None? ==> r == d + [(k, v)]
    ensures Lookup(d, k).Some? ==> |r| == |d| && forall i :: 0 <= i < |r| ==> r[i].0 == d[i].0
  {
    if d == [] then [(k, v)]
    else if d[0].0 == k then [(k, v)] + d[1..]
    else [d[0]] + Put(d[1..], k, v)
  }

  /** After `d[k] = v`, `k` maps to `v` and every other key keeps its value */
  lemma {:induction false} PutLookup(d: Entries, k: string, v: string)
    ensures Lookup(Put(d, k, v), k) == Some(v)
    ensures forall k' :: k' != k ==> Lookup(Put(d, k, v), k') == Lookup(d, k')
  {
    var r := Put(d, k, v);
    if d == [] {
    } else if d[0].0 == k {
      LookupCons((k, v), d[1..]);
      LookupCons(d[0], d[1..]);
    } else {
      PutLookup(d[1..], k, v);
      LookupCons(d[0], Put(d[1..], k, v));
      LookupCons(d[0], d[1..]);
    }
  }

  /** Looking a key up in a dict that starts with entry `e` */
  lemma LookupCons(e: (string, string), t: Entries)
    ensures forall k :: Lookup([e] + t, k) == if e.0 == k then Some(e.1) else Lookup(t, k)
  {
    assert ([e] + t)[1..] == t;
  }

  /** Assignment keeps a dict's keys distinct */
  lemma PutKeysDistinct(d: Entries, k: string, v: string)
    requires KeysDistinct(d)
    ensures KeysDistinct(Put(d, k, v))
  {
    var r := Put(d, k, v);
    if Lookup(d, k).None? {
      assert forall i :: 0 <= i < |d| ==> d[i].0 == Keys(d)[i];
    } else {
      assert Keys(r) == Keys(d);
    }
  }

  /** One turn of the loop over `f_locals` */
  function Record(b: Buckets, l: Local): Buckets {
    if IsDunder(l.name) then b
    else
      var r := StoredRepr(l.value);
      match BucketOf(l.value)
      case Modules => b.(modules := Put(b.modules, l.name, r))
      case Functions => b.(functions := Put(b.functions, l.name, r))
      case Variables => b.(variables := Put(b.variables, l.name, r))
  }

  /** The three dicts after the loop has seen every local */
  function Classified(locals: seq<Local>): Buckets {
    if locals == [] then Buckets([], [], [])
    else Record(Classified(locals[..|locals| - 1]), locals[|locals| - 1])
  }

  /** `_get_frame_info`: fills the three dicts in one pass over the locals */
  method GetFrameInfo(locals: seq<Local>) returns (modules: Entries, functions: Entries, variables: Entries)
    ensures Buckets(modules, functions, variables) == Classified(locals)
  {
    modules, functions, variables := [], [], [];
    for i := 0 to |locals|
      invariant Buckets(modules, functions, variables) == Classified(locals[..i])
    {
      assert locals[..i + 1][..i] == locals[..i];
      var name, val := locals[i].name, locals[i].value;
      if IsDunder(name) {
        continue;
      }
      match val.repr {
        case Printed(t) =>
          if StartsWith(t, "<module") {
            modules := Put(modules, name, t);
          } else if StartsWith(t, "<function") || StartsWith(t, "<bound method") {
            functions := Put(functions, name, t);
          } else {
            variables := Put(variables, name, t);
          }
        case ReprFailed(e) =>
          variables := Put(variables, name, "<unprintable: " + e + ">");
      }
    }
    assert locals[..|locals|] == locals;
  }

  predicate NamesDistinct(locals: seq<Local>) {
    forall i, j :: 0 <= i < j < |locals| ==> locals[i].name != locals[j].name
  }

  /** A turn of the loop for one local leaves every other name where it was */
  lemma RecordOther(b: Buckets, l: Local, bk: Bucket, k: string)
    requires k != l.name
    ensures Lookup(Record(b, l).Get(bk), k) == Lookup(b.Get(bk), k)
  {
    if !IsDunder(l.name) && BucketOf(l.value) == bk {
      var r := StoredRepr(l.value);
      assert Record(b, l).Get(bk) == Put(b.Get(bk), l.name, r);
      PutLookup(b.Get(bk), l.name, r);
    } else {
      assert Record(b, l).Get(bk) == b.Get(bk);
    }
  }

  /** A turn of the loop for a new name puts it, with its stored repr, in its bucket only */
  lemma RecordNew(b: Buckets, l: Local, bk: Bucket)
    requires Lookup(b.Get(bk), l.name) == None
    ensures Lookup(Record(b, l).Get(bk), l.name)
         == if !IsDunder(l.name) && BucketOf(l.value) == bk then Some(StoredRepr(l.value)) else None
  {
    PutLookup(b.Get(bk), l.name, StoredRepr(l.value));
  }

  /** A name no local carries is in no bucket */
  lemma {:induction false} AbsentFromClassified(locals: seq<Local>, name: string, bk: Bucket)
    requires forall j :: 0 <= j < |locals| ==> locals[j].name != name
    ensures Lookup(Classified(locals).Get(bk), name) == None
  {
    if locals != [] {
      var n := |locals| - 1;
      var init := locals[..n];
      assert forall j :: 0 <= j < |init| ==> init[j] == locals[j];
      AbsentFromClassified(init, name, bk);
      assert Classified(locals) == Record(Classified(init), locals[n]);
      RecordOther(Classified(init), locals[n], bk, name);
    }
  }

  /**
   * For a frame (whose locals have distinct names, as the keys of a dict do)
   * a local that is not a dunder name is found, with its stored repr, in
   * exactly the bucket its repr selects and in no other; a dunder name is in
   * none.
   */
  lemma {:induction false} ClassifiedLookup(locals: seq<Local>, i: nat, bk: Bucket)
    requires NamesDistinct(locals) && i < |locals|
    ensures Lookup(Classified(locals).Get(bk), locals[i].name)
         == if !IsDunder(locals[i].name) && BucketOf(locals[i].value) == bk
            then Some(StoredRepr(locals[i].value)) else None
  {
    var n := |locals| - 1;
    var init := locals[..n];
    assert Classified(locals) == Record(Classified(init), locals[n]);
    if i == n {
      AbsentFromClassified(init, locals[n].name, bk);
      RecordNew(Classified(init), locals[n], bk);
    } else {
      assert NamesDistinct(init);
      ClassifiedLookup(init, i, bk);
      RecordOther(Classified(init), locals[n], bk, locals[i].name);
    }
  }

  /** Every name in a bucket is the name of a local that is not a dunder name */
  lemma {:induction false} ClassifiedOnlyLocals(locals: seq<Local>, bk: Bucket, k: string)
    requires k in Keys(Classified(locals).Get(bk))
    ensures exists j :: 0 <= j < |locals| && locals[j].name == k && !IsDunder(k)
  {
    assert locals != [];
    var n := |locals| - 1;
    var init := locals[..n];
    if k == locals[n].name && !IsDunder(k) {
      assert locals[n].name == k;
    } else {
      if k != locals[n].name {
        RecordOther(Classified(init), locals[n], bk, k);
      } else {
        assert Classified(locals) == Classified(init);
      }
      ClassifiedOnlyLocals(init, bk, k);
      var j :| 0 <= j < |init| && init[j].name == k && !IsDunder(k);
      assert locals[j] == init[j];
    }
  }

  /** Each bucket is a dict: no name appears twice */
  lemma {:induction false} ClassifiedKeysDistinct(locals: seq<Local>, bk: Bucket)
    ensures KeysDistinct(Classified(locals).Get(bk))
  {
    if locals != [] {
      var n := |locals| - 1;
      var b := Classified(locals[..n]);
      ClassifiedKeysDistinct(locals[..n], bk);
      var l := locals[n];
      if !IsDunder(l.name) && BucketOf(l.value) == bk {
        PutKeysDistinct(b.Get(bk), l.name, StoredRepr(l.value));
      }
    }
  }

  /** The variables panel cuts a value to its first 500 characters */
  function Truncate(v: string): (r: string)
    ensures |r| <= 500 && StartsWith(v, r)
    ensures |v| <= 500 ==> r == v
    ensures |v| > 500 ==> r == v[..500]
  {
    if |v| > 500 then v[..500] else v
  }

  predicate SortedByKey(d: Entries) {
    forall i, j :: 0 <= i < j < |d| ==> LexLe(d[i].0, d[j].0)
  }

  function Insert(e: (string, string), d: Entries): (r: Entries)
    requires SortedByKey(d)
    ensures SortedByKey(r) && multiset(r) == multiset(d) + multiset{e}
  {
    if d == [] then [e]
    else if LexLe(e.0, d[0].0) then
      InsertFront(e, d);
      [e] + d
    else
      var t := Insert(e, d[1..]);
      InsertLater(e, d, t);
      [d[0]] + t
  }

  /** An entry whose key comes no later than the first key goes in front */
  lemma InsertFront(e: (string, string), d: Entries)
    requires SortedByKey(d) && d != [] && LexLe(e.0, d[0].0)
    ensures SortedByKey([e] + d)
  {
    forall j | 0 <= j < |d| ensures LexLe(e.0, d[j].0) {
      if j > 0 { LexLeTransitive(e.0, d[0].0, d[j].0); }
    }
    var r := [e] + d;
    forall i, j | 0 <= i < j < |r| ensures LexLe(r[i].0, r[j].0) {
      if i > 0 {
        assert r[i] == d[i - 1] && r[j] == d[j - 1];
      }
    }
  }

  /** An entry whose key comes after the first key goes into the rest, behind the first entry */
  lemma InsertLater(e: (string, string), d: Entries, t: Entries)
    requires SortedByKey(d) && d != [] && !LexLe(e.0, d[0].0)
    requires SortedByKey(t) && multiset(t) == multiset(d[1..]) + multiset{e}
    ensures SortedByKey([d[0]] + t) && multiset([d[0]] + t) == multiset(d) + multiset{e}
  {
    LexLeTotal(e.0, d[0].0);
    assert d == [d[0]] + d[1..];
    forall j | 0 <= j < |t| ensures LexLe(d[0].0, t[j].0) {
      assert t[j] in multiset(t);
      if t[j] != e {
        assert t[j] in multiset(d[1..]);
        var k :| 0 <= k < |d[1..]| && d[1..][k] == t[j];
        assert d[k + 1] == t[j];
      }
    }
    var r := [d[0]] + t;
    forall i, j | 0 <= i < j < |r| ensures LexLe(r[i].0, r[j].0) {
      if i > 0 {
        assert r[i] == t[i - 1] && r[j] == t[j - 1];
      }
    }
  }

  /** Python `sorted(d.items())` for a dict (whose keys are distinct, so only keys are compared) */
  function SortByKey(d: Entries): (r: Entries)
    ensures SortedByKey(r) && multiset(r) == multiset(d)
  {
    if d == [] then []
    else
      assert d == [d[0]] + d[1..];
      Insert(d[0], SortByKey(d[1..]))
  }

  /** A section listing names: the title, then each name, or "  None" for an empty dict */
  function NamesSection(title: string, d: Entries): seq<string> {
    [title] + (if d == [] then ["  None"] else Keys(d))
  }

  function VariableLine(e: (string, string)): string {
    e.0 + " = " + Truncate(e.1)
  }

  function VariableLines(d: Entries): (lines: seq<string>)
    ensures |lines| == |d| && forall k :: 0 <= k < |d| ==> lines[k] == VariableLine(d[k])
  {
    if d == [] then [] else [VariableLine(d[0])] + VariableLines(d[1..])
  }

  const VariablesTitle := "\n------ Variables ------"

  function VariablesSection(vars: Entries): seq<string> {
    [VariablesTitle] + (if vars == [] then ["  None"] else VariableLines(SortByKey(vars)))
  }

  /**
   * The variables section prints one line per variable, in ascending name
   * order, each `name = v` where `v` is the first (at most) 500 characters of
   * the stored repr; with no variables it prints "  None".
   */
  lemma VariablesSectionShape(vars: Entries)
    ensures var lines := VariablesSection(vars);
            && lines[0] == VariablesTitle
            && (vars == [] ==> lines == [VariablesTitle, "  None"])
            && (vars != [] ==>
                  |lines| == 1 + |vars|
                  && exists order: Entries ::
                       && |order| == |vars|
                       && multiset(order) == multiset(vars)
                       && SortedByKey(order)
                       && forall k :: 0 <= k < |vars| ==>
                            lines[k + 1] == order[k].0 + " = " + Truncate(order[k].1))
  {
    if vars != [] {
      var order := SortByKey(vars);
      SameLength(order, vars);
      var lines := VariablesSection(vars);
      OrderedLines(VariablesTitle, order, lines);
    }
  }

  /** The title followed by the lines of `order` holds item `k` of `order` at line `k + 1` */
  lemma OrderedLines(title: string, order: Entries, lines: seq<string>)
    requires lines == [title] + VariableLines(order)
    ensures |lines| == 1 + |order|
    ensures forall k :: 0 <= k < |order| ==> lines[k + 1] == order[k].0 + " = " + Truncate(order[k].1)
  {
    var body := VariableLines(order);
    assert forall k :: 0 <= k < |order| ==> lines[k + 1] == body[k];
  }

  /** Two sequences holding the same multiset of entries have the same length */
  lemma SameLength(a: Entries, b: Entries)
    requires multiset(a) == multiset(b)
    ensures |a| == |b|
  {
    assert |a| == |multiset(a)|;
    assert |b| == |multiset(b)|;
  }

  /** The modules, functions, environment and variables sections of `_print_frame_info` */
  function FrameInfoPanel(locals: seq<Local>, envLines: seq<string>): seq<string> {
    var b := Classified(locals);
    NamesSection("\n------ Modules ------", b.modules)
      + NamesSection("\n------ Functions ------", b.functions)
      + envLines
      + VariablesSection(b.variables)
  }

  /** Prints a title and then each name, or "  None" when the dict is empty */
  method PrintNames(title: string, d: Entries) returns (out: seq<string>)
    ensures out == NamesSection(title, d)
  {
    out := [title];
    if d == [] {
      out := out + ["  None"];
      return;
    }
    for i := 0 to |d|
      invariant out == [title] + Keys(d[..i])
    {
      assert Keys(d[..i + 1]) == Keys(d[..i]) + [d[i].0];
      out := out + [d[i].0];
    }
    assert d[..|d|] == d;
  }

  /** Prints the variables section: sorted `name = value` lines */
  method PrintVariables(vars: Entries) returns (out: seq<string>)
    ensures out == VariablesSection(vars)
  {
    out := [VariablesTitle];
    if vars == [] {
      out := out + ["  None"];
      return;
    }
    var sorted := SortByKey(vars);
    var lines := PrintSorted(sorted);
    out := out + lines;
  }

  /** The loop of the variables section over the sorted items: one `name = value` line each, the value cut to 500 characters */
  method PrintSorted(sorted: Entries) returns (out: seq<string>)
    ensures out == VariableLines(sorted)
  {
    out := [];
    for i := 0 to |sorted|
      invariant out == VariableLines(sorted[..i])
    {
      var name, val := sorted[i].0, sorted[i].1;
      if |val| > 500 {
        val := val[..500];
      }
      assert name + " = " + val == VariableLine(sorted[i]);
      SortedStep(sorted, i, out);
      out := out + [name + " = " + val];
    }
    assert sorted[..|sorted|] == sorted;
  }

  /** One more sorted item appends its line */
  lemma SortedStep(sorted: Entries, i: int, out: seq<string>)
    requires 0 <= i < |sorted| && out == VariableLines(sorted[..i])
    ensures out + [VariableLine(sorted[i])] == VariableLines(sorted[..i + 1])
  {
    var d := sorted[..i];
    assert sorted[..i + 1] == d + [sorted[i]];
    VariableLinesAppend(d, sorted[i]);
  }

  lemma VariableLinesAppend(d: Entries, e: (string, string))
    ensures VariableLines(d + [e]) == VariableLines(d) + [VariableLine(e)]
  {
    var a := VariableLines(d + [e]);
    var b := VariableLines(d) + [VariableLine(e)];
    assert forall k :: 0 <= k < |d| ==> (d + [e])[k] == d[k];
    assert |a| == |b| && forall k :: 0 <= k < |a| ==> a[k] == b[k];
  }

  /**
   * `_print_frame_info`. The System Info and Python Path sections read the
   * interpreter's environment; their lines come in as `envLines`.
   */
  method PrintFrameInfo(locals: seq<Local>, envLines: seq<string>) returns (out: seq<string>)
    ensures out == FrameInfoPanel(locals, envLines)
  {
    var modules, functions, variables := GetFrameInfo(locals);
    var m := PrintNames("\n------ Modules ------", modules);
    var f := PrintNames("\n------ Functions ------", functions);
    var v := PrintVariables(variables);
    out := m + f + envLines + v;
  }
}

/**
 * `identify_problematic_columns`: which columns of a DataFrame hold values a
 * PostgreSQL adapter cannot take as they are. Each column is judged by its
 * first non-null cell alone: a dict, a list with a dict in it, or a list of
 * lists one of which holds a dict. The result lists the offending columns in
 * column order with one of three reasons.
 */
module ProblematicColumns {
  import opened Wrappers
  import Seqs

  /**
   * A cell value. Only dicts and lists are told apart; every other value
   * (number, string, tuple, set, ...) is known by its type's name and by
   * whether it has an `__iter__` attribute.
   */
  datatype Cell =
    | DictCell(entries: seq<(Cell, Cell)>)
    | ListCell(items: seq<Cell>)
    | OtherCell(typeName: string, iterable: bool)

  /** A column: its label and its cells in row order, `None` for a null (`None` or NaN) */
  datatype Column = Column(name: string, cells: seq<Option<Cell>>)

  /** The three reasons a column is reported for */
  datatype Reason = Dictionary | ListOfDicts | NestedListOfDicts {
    /** The reason as the report spells it */
    function Text(): string {
      match this
      case Dictionary => "Dictionary"
      case ListOfDicts => "List containing dictionaries"
      case NestedListOfDicts => "Nested list potentially containing dictionaries"
    }
  }

  /** `isinstance(c, dict)` */
  predicate IsDict(c: Cell) {
    c.DictCell?
  }

  /** `hasattr(c, '__iter__')`: dicts and lists have it, other values as their type says */
  predicate Iterable(c: Cell) {
    match c
    case DictCell(_) => true
    case ListCell(_) => true
    case OtherCell(_, iterable) => iterable
  }

  /** `df[col].dropna()`: the non-null cells, in row order */
  function DropNa(cells: seq<Option<Cell>>): (r: seq<Cell>)
    ensures |r| <= |cells|
  {
    if cells == [] then []
    else (if cells[0].Some? then [cells[0].value] else []) + DropNa(cells[1..])
  }

  /** `df[col].dropna().iloc[0] if not df[col].dropna().empty else None` */
  function Sample(cells: seq<Option<Cell>>): Option<Cell> {
    var present := DropNa(cells);
    if present == [] then None else Some(present[0])
  }

  /** `any(isinstance(item, dict) for item in items if isinstance(item, dict))` */
  predicate AnyDictItem(items: seq<Cell>) {
    var dicts := Seqs.Filter(items, IsDict);
    exists k :: 0 <= k < |dicts| && IsDict(dicts[k])
  }

  /** `any(isinstance(item, list) for item in items)` */
  predicate AnyListItem(items: seq<Cell>) {
    exists k :: 0 <= k < |items| && items[k].ListCell?
  }

  /** `any(isinstance(subitem, dict) for subitem in item if hasattr(subitem, '__iter__'))` */
  predicate AnyIterableDict(subitems: seq<Cell>) {
    var iterables := Seqs.Filter(subitems, Iterable);
    exists k :: 0 <= k < |iterables| && IsDict(iterables[k])
  }

  /** The condition the inner loop looks for: an element that is a list and holds a dict */
  predicate HoldsDict(item: Cell) {
    item.ListCell? && AnyIterableDict(item.items)
  }

  /** The `if`/`elif` chain on one sample, `None` when the column is fine */
  function Classify(sample: Cell): Option<Reason> {
    if IsDict(sample) then Some(Dictionary)
    else if sample.ListCell? && AnyDictItem(sample.items) then Some(ListOfDicts)
    else if sample.ListCell? && AnyListItem(sample.items) then
      (if exists k :: 0 <= k < |sample.items| && HoldsDict(sample.items[k]) then Some(NestedListOfDicts) else None)
    else None
  }

  /** What one column contributes to the result */
  function Verdict(col: Column): Option<(string, string)> {
    match Sample(col.cells)
    case None => None
    case Some(s) =>
      match Classify(s)
      case None => None
      case Some(r) => Some((col.name, r.Text()))
  }

  /** The pairs the loop has appended after going through `df` */
  function Report(df: seq<Column>): seq<(string, string)> {
    if df == [] then []
    else
      Report(df[..|df| - 1])
        + (match Verdict(df[|df| - 1]) case None => [] case Some(p) => [p])
  }

  /**
   * The inner loop of the nested-list case: set the flag and stop at the
   * first element that is a list holding a dict.
   */
  method ScanForNestedDict(sample: seq<Cell>) returns (hasNestedDict: bool)
    ensures hasNestedDict <==> exists k :: 0 <= k < |sample| && HoldsDict(sample[k])
  {
    hasNestedDict := false;
    var i := 0;
    while i < |sample|
      invariant 0 <= i <= |sample|
      invariant !hasNestedDict
      invariant forall k :: 0 <= k < i ==> !HoldsDict(sample[k])
    {
      var item := sample[i];
      if item.ListCell? && AnyIterableDict(item.items) {
        hasNestedDict := true;
        break;
      }
      i := i + 1;
    }
  }

  /** `identify_problematic_columns`: one pass over the columns, appending each offender */
  method IdentifyProblematicColumns(df: seq<Column>) returns (problematicCols: seq<(string, string)>)
    ensures problematicCols == Report(df)
  {
    problematicCols := [];
    for c := 0 to |df|
      invariant problematicCols == Report(df[..c])
    {
      var col := df[c];
      var sample := Sample(col.cells);
      if sample.Some? {
        var s := sample.value;
        if IsDict(s) {
          problematicCols := problematicCols + [(col.name, Dictionary.Text())];
        } else if s.ListCell? && AnyDictItem(s.items) {
          problematicCols := problematicCols + [(col.name, ListOfDicts.Text())];
        } else if s.ListCell? && AnyListItem(s.items) {
          var hasNestedDict := ScanForNestedDict(s.items);
          if hasNestedDict {
            problematicCols := problematicCols + [(col.name, NestedListOfDicts.Text())];
          }
        }
      }
      assert df[..c + 1][..c] == df[..c];
    }
    assert df[..|df|] == df;
  }

  // ---------------------------------------------------------------------
  // Only the first non-null cell counts

  /** `DropNa` keeps exactly the non-null cells, in order, when followed by more cells */
  lemma {:induction false} DropNaAppend(cells: seq<Option<Cell>>, more: seq<Option<Cell>>)
    ensures DropNa(cells + more) == DropNa(cells) + DropNa(more)
  {
    if cells != [] {
      var head := if cells[0].Some? then [cells[0].value] else [];
      assert (cells + more)[0] == cells[0];
      assert (cells + more)[1..] == cells[1..] + more;
      DropNaAppend(cells[1..], more);
      assert DropNa(cells + more) == head + (DropNa(cells[1..]) + DropNa(more));
      assert DropNa(cells) == head + DropNa(cells[1..]);
      assert head + (DropNa(cells[1..]) + DropNa(more)) == (head + DropNa(cells[1..])) + DropNa(more);
    } else {
      assert cells + more == more;
    }
  }

  /** Cells that are all null contribute nothing after `dropna` */
  lemma {:induction false} DropNaAllNull(cells: seq<Option<Cell>>)
    requires forall i :: 0 <= i < |cells| ==> cells[i].None?
    ensures DropNa(cells) == []
  {
    if cells != [] {
      DropNaAllNull(cells[1..]);
    }
  }

  /**
   * The sample is the first non-null cell: after any run of nulls, the first
   * value present is the sample, whatever follows it.
   */
  lemma SampleIsFirstNonNull(nulls: seq<Option<Cell>>, x: Cell, rest: seq<Option<Cell>>)
    requires forall i :: 0 <= i < |nulls| ==> nulls[i].None?
    ensures Sample(nulls + [Some(x)] + rest) == Some(x)
  {
    DropNaAppend(nulls + [Some(x)], rest);
    DropNaAppend(nulls, [Some(x)]);
    DropNaAllNull(nulls);
    assert DropNa([Some(x)]) == [x] by {
      assert [Some(x)][1..] == [];
    }
  }

  /** A column with no non-null cell has no sample and is never reported */
  lemma AllNullNeverReported(col: Column)
    requires forall i :: 0 <= i < |col.cells| ==> col.cells[i].None?
    ensures Sample(col.cells) == None && Verdict(col) == None
  {
    DropNaAllNull(col.cells);
  }

  /** Cells after the sample are never looked at: appending rows does not change a column's verdict */
  lemma LaterCellsIgnored(name: string, cells: seq<Option<Cell>>, more: seq<Option<Cell>>)
    requires Sample(cells).Some?
    ensures Verdict(Column(name, cells + more)) == Verdict(Column(name, cells))
  {
    DropNaAppend(cells, more);
  }

  // ---------------------------------------------------------------------
  // What each reason means

  /** The `if isinstance(item, dict)` filter changes nothing: the test is "some element is a dict" */
  lemma AnyDictItemIff(items: seq<Cell>)
    ensures AnyDictItem(items) <==> exists i :: 0 <= i < |items| && IsDict(items[i])
  {
    var dicts := Seqs.Filter(items, IsDict);
    Seqs.FilterEmpty(items, IsDict);
    if dicts != [] {
      assert IsDict(dicts[0]);
    }
  }

  /** A dict always has `__iter__`, so the `hasattr` filter keeps every dict: the test is "some subitem is a dict" */
  lemma AnyIterableDictIff(subitems: seq<Cell>)
    ensures AnyIterableDict(subitems) <==> exists j :: 0 <= j < |subitems| && IsDict(subitems[j])
  {
    var iterables := Seqs.Filter(subitems, Iterable);
    if exists j :: 0 <= j < |subitems| && IsDict(subitems[j]) {
      var j :| 0 <= j < |subitems| && IsDict(subitems[j]);
      Seqs.FilterComplete(subitems, Iterable, subitems[j]);
      var k :| 0 <= k < |iterables| && iterables[k] == subitems[j];
      assert IsDict(iterables[k]);
    }
    if AnyIterableDict(subitems) {
      var k :| 0 <= k < |iterables| && IsDict(iterables[k]);
      assert iterables[k] in subitems;
      var j :| 0 <= j < |subitems| && subitems[j] == iterables[k];
    }
  }

  /**
   * The three reasons, stated without the filters and the redundant guard:
   * a dict; a list with a dict element; a list with no dict element but an
   * element that is a list with a dict element. Nothing else is reported.
   */
  lemma ClassifyMeaning(s: Cell)
    ensures Classify(s) == Some(Dictionary) <==> s.DictCell?
    ensures Classify(s) == Some(ListOfDicts) <==>
              s.ListCell? && exists i :: 0 <= i < |s.items| && s.items[i].DictCell?
    ensures Classify(s) == Some(NestedListOfDicts) <==>
              && s.ListCell?
              && (forall i :: 0 <= i < |s.items| ==> !s.items[i].DictCell?)
              && (exists i :: 0 <= i < |s.items| && s.items[i].ListCell?
                                && exists j :: 0 <= j < |s.items[i].items| && s.items[i].items[j].DictCell?)
  {
    if s.ListCell? {
      AnyDictItemIff(s.items);
      forall i | 0 <= i < |s.items| && s.items[i].ListCell?
        ensures HoldsDict(s.items[i]) <==> exists j :: 0 <= j < |s.items[i].items| && s.items[i].items[j].DictCell?
      {
        AnyIterableDictIff(s.items[i].items);
      }
    }
  }

  /** Scalars, strings and every value that is neither a dict nor a list, and empty lists, are never reported */
  lemma FineSamples(s: Cell)
    requires s.OtherCell? || s == ListCell([])
    ensures Classify(s) == None
  {
    ClassifyMeaning(s);
  }

  /** A list of lists none of which holds a dict, such as `[[1, 2], [3]]`, is not reported */
  lemma PlainNestedListsFine(s: Cell)
    requires s.ListCell?
    requires forall i :: 0 <= i < |s.items| ==> s.items[i].ListCell?
    requires forall i, j :: 0 <= i < |s.items| && 0 <= j < |s.items[i].items| ==> !s.items[i].items[j].DictCell?
    ensures Classify(s) == None
  {
    ClassifyMeaning(s);
  }

  // ---------------------------------------------------------------------
  // The result

  /** Reports of consecutive slices of columns concatenate: the result follows column order */
  lemma {:induction false} ReportAppend(df: seq<Column>, more: seq<Column>)
    ensures Report(df + more) == Report(df) + Report(more)
    decreases |more|
  {
    if more != [] {
      var all := df + more;
      assert all[..|all| - 1] == df + more[..|more| - 1];
      assert all[|all| - 1] == more[|more| - 1];
      var tail := match Verdict(more[|more| - 1]) case None => [] case Some(p) => [p];
      ReportAppend(df, more[..|more| - 1]);
      assert Report(all) == Report(df) + Report(more[..|more| - 1]) + tail;
      assert Report(more) == Report(more[..|more| - 1]) + tail;
      assert Report(df) + Report(more[..|more| - 1]) + tail == Report(df) + (Report(more[..|more| - 1]) + tail);
    } else {
      assert df + more == df;
    }
  }

  /** A pair is in the result exactly when some column yields it */
  lemma {:induction false} ReportMembers(df: seq<Column>, p: (string, string))
    ensures p in Report(df) <==> exists i :: 0 <= i < |df| && Verdict(df[i]) == Some(p)
  {
    if df != [] {
      var init := df[..|df| - 1];
      ReportMembers(init, p);
      if exists i :: 0 <= i < |init| && Verdict(init[i]) == Some(p) {
        var i :| 0 <= i < |init| && Verdict(init[i]) == Some(p);
        assert df[i] == init[i];
      }
      if exists i :: 0 <= i < |df| && Verdict(df[i]) == Some(p) {
        var i :| 0 <= i < |df| && Verdict(df[i]) == Some(p);
        if i < |init| {
          assert init[i] == df[i];
        }
      }
    }
  }

  /** At most one pair per column, each naming a column and one of the three reasons */
  lemma ReportShape(df: seq<Column>)
    ensures |Report(df)| <= |df|
    ensures forall p :: p in Report(df) ==>
              (exists i :: 0 <= i < |df| && df[i].name == p.0)
              && p.1 in {Dictionary.Text(), ListOfDicts.Text(), NestedListOfDicts.Text()}
  {
    ReportLength(df);
    forall p | p in Report(df)
      ensures (exists i :: 0 <= i < |df| && df[i].name == p.0)
              && p.1 in {Dictionary.Text(), ListOfDicts.Text(), NestedListOfDicts.Text()}
    {
      ReportMembers(df, p);
      var i :| 0 <= i < |df| && Verdict(df[i]) == Some(p);
      assert df[i].name == p.0;
    }
  }

  /** The result is no longer than the list of columns */
  lemma {:induction false} ReportLength(df: seq<Column>)
    ensures |Report(df)| <= |df|
  {
    if df != [] {
      ReportLength(df[..|df| - 1]);
    }
  }

  /** With distinct column labels, every column is listed at most once */
  lemma {:induction false} ReportNamesDistinct(df: seq<Column>)
    requires forall i, j :: 0 <= i < j < |df| ==> df[i].name != df[j].name
    ensures forall a, b :: 0 <= a < b < |Report(df)| ==> Report(df)[a].0 != Report(df)[b].0
  {
    if df != [] {
      var init := df[..|df| - 1];
      var last := df[|df| - 1];
      ReportNamesDistinct(init);
      var r := Report(df);
      var head := Report(init);
      forall a, b | 0 <= a < b < |r| ensures r[a].0 != r[b].0 {
        if b >= |head| {
          ReportMembers(init, r[a]);
          var i :| 0 <= i < |init| && Verdict(init[i]) == Some(r[a]);
          assert init[i].name == r[a].0;
          assert r[b].0 == last.name;
          assert init[i] == df[i];
        } else {
          assert r[a] == head[a] && r[b] == head[b];
        }
      }
    }
  }

  /** A two-column example: a dict column and a column whose values are all null */
  lemma DictColumnAndEmptyColumn(d: seq<(Cell, Cell)>)
    ensures Report([Column("profile", [None, Some(DictCell(d))]), Column("notes", [None, None])])
         == [("profile", "Dictionary")]
  {
    var df := [Column("profile", [None, Some(DictCell(d))]), Column("notes", [None, None])];
    SampleIsFirstNonNull([None], DictCell(d), []);
    assert [None] + [Some(DictCell(d))] + [] == df[0].cells;
    AllNullNeverReported(df[1]);
    assert Verdict(df[0]) == Some(("profile", "Dictionary"));
    assert df[..1] == [df[0]];
    assert [df[0]][..0] == [];
    assert Report([df[0]]) == [("profile", "Dictionary")];
  }
}

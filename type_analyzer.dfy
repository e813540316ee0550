/**
 * Structural type inference: the PEP 585 annotation of a nested Python value
 * (`get_complex_type_annotation`) and its printed form (`type_to_string`).
 * Children of a list, a set, or a dict's keys or values that disagree in type
 * give a `Union` of their distinct annotations; a tuple keeps one annotation
 * per position.
 */
module TypeAnalyzer {
  import opened Text

  /**
   * The values the inference walks. A leaf is `None` or a non-container value,
   * known by its type's name and its value's text; a dict is its entries in
   * insertion order, a set its elements in iteration order.
   */
  datatype PyData =
    | NoneVal
    | Scalar(typeName: string, text: string)
    | Dict(entries: seq<(PyData, PyData)>)
    | List(items: seq<PyData>)
    | Tuple(items: seq<PyData>)
    | Set(items: seq<PyData>)

  /** Annotations. A `Union` is equal to any other with the same members, whatever their order, so its members form a set */
  datatype Anno =
    | AnyT                              // typing.Any
    | Named(name: string)               // a class, shown by its `__name__`
    | DictOf(key: Anno, value: Anno)
    | ListOf(elem: Anno)
    | TupleOf(args: seq<Anno>)
    | SetOf(elem: Anno)
    | UnionOf(members: set<Anno>)

  /** The distinct annotations among `xs` */
  function Distinct(xs: seq<Anno>): set<Anno> {
    set x | x in xs
  }

  /** `s.pop() if len(s) == 1 else Union[tuple(s)]` for the set `s` of the children's annotations */
  function Merge(xs: seq<Anno>): Anno
    requires |xs| > 0
  {
    if |Distinct(xs)| == 1 then xs[0] else UnionOf(Distinct(xs))
  }

  /** `get_complex_type_annotation` */
  function Annotation(d: PyData): Anno
    decreases d
  {
    match d
    case NoneVal => Named("NoneType")
    case Scalar(t, _) => Named(t)
    case Dict(entries) =>
      if entries == [] then DictOf(AnyT, AnyT)
      else DictOf(Merge(seq(|entries|, i requires 0 <= i < |entries| => Annotation(entries[i].0))),
                  Merge(seq(|entries|, i requires 0 <= i < |entries| => Annotation(entries[i].1))))
    case List(items) =>
      if items == [] then ListOf(AnyT)
      else ListOf(Merge(seq(|items|, i requires 0 <= i < |items| => Annotation(items[i]))))
    case Tuple(items) =>
      TupleOf(seq(|items|, i requires 0 <= i < |items| => Annotation(items[i])))
    case Set(items) =>
      if items == [] then SetOf(AnyT)
      else SetOf(Merge(seq(|items|, i requires 0 <= i < |items| => Annotation(items[i]))))
  }

  /** The annotations of a sequence of children, in order */
  function Annotations(items: seq<PyData>): (r: seq<Anno>)
    ensures |r| == |items| && forall i :: 0 <= i < |items| ==> r[i] == Annotation(items[i])
  {
    seq(|items|, i requires 0 <= i < |items| => Annotation(items[i]))
  }

  /** The members of a union in the order the set yields them */
  ghost function Members(s: set<Anno>): (xs: seq<Anno>)
    ensures |xs| == |s|
    ensures forall x :: x in xs <==> x in s
  {
    if s == {} then []
    else
      var x :| x in s;
      [x] + Members(s - {x})
  }

  /** `type_to_string`; a union's members are printed in the order its set yields them */
  ghost function TypeToString(a: Anno): string
    decreases a
  {
    match a
    case AnyT => "Any"
    case Named(n) => n
    case DictOf(k, v) => "dict[" + TypeToString(k) + ", " + TypeToString(v) + "]"
    case ListOf(e) => "list[" + TypeToString(e) + "]"
    case TupleOf(args) =>
      "tuple[" + JoinStrings(", ", seq(|args|, i requires 0 <= i < |args| => TypeToString(args[i]))) + "]"
    case SetOf(e) => "set[" + TypeToString(e) + "]"
    case UnionOf(ms) =>
      var xs := Members(ms);
      "Union[" + JoinStrings(", ", seq(|xs|, i requires 0 <= i < |xs| => assert xs[i] in ms; TypeToString(xs[i]))) + "]"
  }

  /** The keys of a dict's entries, in order */
  function KeysOf(entries: seq<(PyData, PyData)>): (r: seq<PyData>)
    ensures |r| == |entries| && forall i :: 0 <= i < |entries| ==> r[i] == entries[i].0
  {
    seq(|entries|, i requires 0 <= i < |entries| => entries[i].0)
  }

  /** The values of a dict's entries, in order */
  function ValuesOf(entries: seq<(PyData, PyData)>): (r: seq<PyData>)
    ensures |r| == |entries| && forall i :: 0 <= i < |entries| ==> r[i] == entries[i].1
  {
    seq(|entries|, i requires 0 <= i < |entries| => entries[i].1)
  }

  /** The annotation of a container in terms of its children's annotations */
  lemma AnnotationUnfold(d: PyData)
    ensures d.List? && d.items != [] ==> Annotation(d) == ListOf(Merge(Annotations(d.items)))
    ensures d.Set? && d.items != [] ==> Annotation(d) == SetOf(Merge(Annotations(d.items)))
    ensures d.Tuple? ==> Annotation(d) == TupleOf(Annotations(d.items))
    ensures d.Dict? && d.entries != [] ==>
              Annotation(d) == DictOf(Merge(Annotations(KeysOf(d.entries))), Merge(Annotations(ValuesOf(d.entries))))
  {
    match d
    case List(items) =>
      if items != [] {
        assert Annotations(items) == seq(|items|, i requires 0 <= i < |items| => Annotation(items[i]));
      }
    case Set(items) =>
      if items != [] {
        assert Annotations(items) == seq(|items|, i requires 0 <= i < |items| => Annotation(items[i]));
      }
    case Tuple(items) =>
      assert Annotations(items) == seq(|items|, i requires 0 <= i < |items| => Annotation(items[i]));
    case Dict(es) =>
      if es != [] {
        assert Annotations(KeysOf(es)) == seq(|es|, i requires 0 <= i < |es| => Annotation(es[i].0));
        assert Annotations(ValuesOf(es)) == seq(|es|, i requires 0 <= i < |es| => Annotation(es[i].1));
      }
    case _ =>
  }

  /** A set with one element holds nothing else */
  lemma SingletonMembers(d: set<Anno>, a: Anno, b: Anno)
    requires |d| == 1 && a in d && b in d
    ensures a == b
  {
    assert |d - {a}| == 0;
    assert b in d - {a} || b == a;
  }

  /**
   * Children that all agree give their one annotation; children that disagree
   * give a union of their distinct annotations, which has at least two members.
   */
  lemma MergeCases(xs: seq<Anno>)
    requires |xs| > 0
    ensures (forall i :: 0 <= i < |xs| ==> xs[i] == xs[0]) ==> Merge(xs) == xs[0]
    ensures (exists i :: 0 <= i < |xs| && xs[i] != xs[0]) ==>
              Merge(xs) == UnionOf(Distinct(xs)) && |Distinct(xs)| >= 2
  {
    var d := Distinct(xs);
    if forall i :: 0 <= i < |xs| ==> xs[i] == xs[0] {
      assert d == {xs[0]};
    } else {
      var i :| 0 <= i < |xs| && xs[i] != xs[0];
      var two := {xs[0], xs[i]};
      assert d == two + (d - two);
      assert |two| == 2;
    }
  }

  /** The merged annotation depends only on the set of children's annotations */
  lemma MergeBySet(xs: seq<Anno>, ys: seq<Anno>)
    requires |xs| > 0 && |ys| > 0 && Distinct(xs) == Distinct(ys)
    ensures Merge(xs) == Merge(ys)
  {
    if |Distinct(xs)| == 1 {
      SingletonMembers(Distinct(xs), xs[0], ys[0]);
    }
  }

  /** The distinct annotations of children, as the source's set comprehension over them */
  function ChildTypes(items: seq<PyData>): set<Anno> {
    set i | 0 <= i < |items| :: Annotation(items[i])
  }

  /** Only an empty container has no child annotations */
  lemma ChildTypesEmpty(items: seq<PyData>)
    ensures ChildTypes(items) == {} <==> items == []
  {
    if items != [] {
      assert Annotation(items[0]) in ChildTypes(items);
    }
  }

  /**
   * For a non-empty list or set: when every element has the same annotation,
   * that is the element annotation; otherwise it is the union of the elements'
   * distinct annotations, with at least two members.
   */
  lemma ElementAnnotation(items: seq<PyData>)
    requires items != []
    ensures (forall i :: 0 <= i < |items| ==> Annotation(items[i]) == Annotation(items[0])) ==>
              Annotation(List(items)) == ListOf(Annotation(items[0])) && Annotation(Set(items)) == SetOf(Annotation(items[0]))
    ensures (exists i :: 0 <= i < |items| && Annotation(items[i]) != Annotation(items[0])) ==>
              && Annotation(List(items)) == ListOf(UnionOf(ChildTypes(items)))
              && Annotation(Set(items)) == SetOf(UnionOf(ChildTypes(items)))
              && |ChildTypes(items)| >= 2
  {
    var cs := Annotations(items);
    AnnotationUnfold(List(items));
    AnnotationUnfold(Set(items));
    MergeCases(cs);
    assert Distinct(cs) == ChildTypes(items) by {
      forall x | x in Distinct(cs) ensures x in ChildTypes(items) {
        var i :| 0 <= i < |cs| && cs[i] == x;
      }
    }
    if exists i :: 0 <= i < |items| && Annotation(items[i]) != Annotation(items[0]) {
      var i :| 0 <= i < |items| && Annotation(items[i]) != Annotation(items[0]);
      assert cs[i] != cs[0];
    }
  }

  /**
   * For a non-empty dict, keys and values separately: the one annotation they
   * all share, or else the union of their distinct annotations.
   */
  lemma DictAnnotation(entries: seq<(PyData, PyData)>)
    requires entries != []
    ensures var ks := KeysOf(entries);
            var vs := ValuesOf(entries);
            && Annotation(Dict(entries)).key == Annotation(List(ks)).elem
            && Annotation(Dict(entries)).value == Annotation(List(vs)).elem
  {
    AnnotationUnfold(Dict(entries));
    AnnotationUnfold(List(KeysOf(entries)));
    AnnotationUnfold(List(ValuesOf(entries)));
  }

  /**
   * The annotation of a list or a set depends only on which elements it has:
   * reordering or repeating them changes nothing. More generally it depends
   * only on the set of its elements' annotations.
   */
  lemma OrderAndRepeatsIgnored(items: seq<PyData>, others: seq<PyData>)
    requires ChildTypes(items) == ChildTypes(others)
    ensures Annotation(List(items)) == Annotation(List(others))
    ensures Annotation(Set(items)) == Annotation(Set(others))
  {
    ChildTypesEmpty(items);
    ChildTypesEmpty(others);
    if items != [] {
      AnnotationUnfold(List(items));
      AnnotationUnfold(Set(items));
      AnnotationUnfold(List(others));
      AnnotationUnfold(Set(others));
      var cs, ds := Annotations(items), Annotations(others);
      assert Distinct(cs) == ChildTypes(items) by {
        forall x | x in Distinct(cs) ensures x in ChildTypes(items) {
          var i :| 0 <= i < |cs| && cs[i] == x;
        }
      }
      assert Distinct(ds) == ChildTypes(others) by {
        forall x | x in Distinct(ds) ensures x in ChildTypes(others) {
          var i :| 0 <= i < |ds| && ds[i] == x;
        }
      }
      MergeBySet(cs, ds);
    }
  }

  /** The same elements, in any order and with any repetition, give the same list and set annotations */
  lemma SameElementsSameAnnotation(items: seq<PyData>, others: seq<PyData>)
    requires forall x :: x in items <==> x in others
    ensures Annotation(List(items)) == Annotation(List(others))
    ensures Annotation(Set(items)) == Annotation(Set(others))
  {
    forall a | a in ChildTypes(items) ensures a in ChildTypes(others) {
      var i :| 0 <= i < |items| && Annotation(items[i]) == a;
      assert items[i] in others;
      var j :| 0 <= j < |others| && others[j] == items[i];
    }
    forall a | a in ChildTypes(others) ensures a in ChildTypes(items) {
      var j :| 0 <= j < |others| && Annotation(others[j]) == a;
      assert others[j] in items;
      var i :| 0 <= i < |items| && items[i] == others[j];
    }
    OrderAndRepeatsIgnored(items, others);
  }

  /** Two values of the same shape: equal up to the text of their leaves (dict keys included) */
  predicate SameShape(d: PyData, e: PyData)
    decreases d
  {
    match d
    case NoneVal => e.NoneVal?
    case Scalar(t, _) => e.Scalar? && e.typeName == t
    case Dict(es) =>
      e.Dict? && |e.entries| == |es|
      && forall i :: 0 <= i < |es| ==> SameShape(es[i].0, e.entries[i].0) && SameShape(es[i].1, e.entries[i].1)
    case List(xs) => e.List? && SameShapes(xs, e.items)
    case Tuple(xs) => e.Tuple? && SameShapes(xs, e.items)
    case Set(xs) => e.Set? && SameShapes(xs, e.items)
  }

  /** Pointwise `SameShape` */
  predicate SameShapes(xs: seq<PyData>, ys: seq<PyData>)
    decreases xs, 1
  {
    |xs| == |ys| && forall i :: 0 <= i < |xs| ==> SameShape(xs[i], ys[i])
  }

  /** The annotation does not depend on leaf values or on the text of dict keys, only on the shape */
  lemma {:induction false} ShapeDetermines(d: PyData, e: PyData)
    requires SameShape(d, e)
    ensures Annotation(d) == Annotation(e)
    decreases d, 0
  {
    AnnotationUnfold(d);
    AnnotationUnfold(e);
    match d
    case NoneVal =>
    case Scalar(_, _) =>
    case List(xs) => ShapesDetermine(xs, e.items);
    case Tuple(xs) => ShapesDetermine(xs, e.items);
    case Set(xs) => ShapesDetermine(xs, e.items);
    case Dict(es) =>
      var fs := e.entries;
      forall i | 0 <= i < |es|
        ensures Annotation(es[i].0) == Annotation(fs[i].0) && Annotation(es[i].1) == Annotation(fs[i].1)
      {
        ShapeDetermines(es[i].0, fs[i].0);
        ShapeDetermines(es[i].1, fs[i].1);
      }
      assert Annotations(KeysOf(es)) == Annotations(KeysOf(fs));
      assert Annotations(ValuesOf(es)) == Annotations(ValuesOf(fs));
  }

  /** Pointwise `ShapeDetermines` */
  lemma {:induction false} ShapesDetermine(xs: seq<PyData>, ys: seq<PyData>)
    requires SameShapes(xs, ys)
    ensures Annotations(xs) == Annotations(ys)
    decreases xs, 1
  {
    forall i | 0 <= i < |xs| ensures Annotation(xs[i]) == Annotation(ys[i]) {
      ShapeDetermines(xs[i], ys[i]);
    }
  }

  /**
   * Where unions may sit in an annotation: never at the top, and elsewhere
   * only as the whole argument of a dict, list or set, with at least two
   * members none of which is a union.
   */
  predicate Placed(a: Anno)
    decreases a, 0
  {
    match a
    case UnionOf(_) => false
    case DictOf(k, v) => ArgPlaced(k) && ArgPlaced(v)
    case ListOf(e) => ArgPlaced(e)
    case SetOf(e) => ArgPlaced(e)
    case TupleOf(args) => forall i :: 0 <= i < |args| ==> Placed(args[i])
    case _ => true
  }

  /** An argument of a dict, list or set: a placed annotation, or a union of two or more of them */
  predicate ArgPlaced(a: Anno)
    decreases a, 1
  {
    match a
    case UnionOf(ms) => |ms| >= 2 && forall m | m in ms :: Placed(m)
    case _ => Placed(a)
  }

  /** Merging placed annotations gives a valid argument */
  lemma MergePlaced(xs: seq<Anno>)
    requires |xs| > 0 && forall i :: 0 <= i < |xs| ==> Placed(xs[i])
    ensures ArgPlaced(Merge(xs))
  {
    MergeCases(xs);
  }

  /** The inference never returns a union at the top and places every union it builds as `Placed` says */
  lemma {:induction false} AnnotationPlaced(d: PyData)
    ensures Placed(Annotation(d))
    decreases d
  {
    AnnotationUnfold(d);
    match d
    case NoneVal =>
    case Scalar(_, _) =>
    case List(xs) =>
      if xs != [] {
        forall i | 0 <= i < |xs| ensures Placed(Annotations(xs)[i]) { AnnotationPlaced(xs[i]); }
        MergePlaced(Annotations(xs));
      }
    case Set(xs) =>
      if xs != [] {
        forall i | 0 <= i < |xs| ensures Placed(Annotations(xs)[i]) { AnnotationPlaced(xs[i]); }
        MergePlaced(Annotations(xs));
      }
    case Tuple(xs) =>
      forall i | 0 <= i < |xs| ensures Placed(Annotations(xs)[i]) { AnnotationPlaced(xs[i]); }
    case Dict(es) =>
      if es != [] {
        forall i | 0 <= i < |es|
          ensures Placed(Annotations(KeysOf(es))[i]) && Placed(Annotations(ValuesOf(es))[i])
        {
          AnnotationPlaced(es[i].0);
          AnnotationPlaced(es[i].1);
        }
        MergePlaced(Annotations(KeysOf(es)));
        MergePlaced(Annotations(ValuesOf(es)));
      }
  }

  /** The type names of the leaves of a value (`NoneType` for `None`) */
  function LeafTypes(d: PyData): set<string>
    decreases d
  {
    match d
    case NoneVal => {"NoneType"}
    case Scalar(t, _) => {t}
    case Dict(es) =>
      (set i, t | 0 <= i < |es| && t in LeafTypes(es[i].0) :: t)
        + (set i, t | 0 <= i < |es| && t in LeafTypes(es[i].1) :: t)
    case List(xs) => set i, t | 0 <= i < |xs| && t in LeafTypes(xs[i]) :: t
    case Tuple(xs) => set i, t | 0 <= i < |xs| && t in LeafTypes(xs[i]) :: t
    case Set(xs) => set i, t | 0 <= i < |xs| && t in LeafTypes(xs[i]) :: t
  }

  /** The printed forms of a sequence of annotations */
  ghost function Renderings(xs: seq<Anno>): (r: seq<string>)
    ensures |r| == |xs| && forall i :: 0 <= i < |xs| ==> r[i] == TypeToString(xs[i])
  {
    seq(|xs|, i requires 0 <= i < |xs| => TypeToString(xs[i]))
  }

  /** `type_to_string` of a tuple and of a union, through `Renderings` */
  lemma TypeToStringUnfold(a: Anno)
    ensures a.TupleOf? ==> TypeToString(a) == "tuple[" + JoinStrings(", ", Renderings(a.args)) + "]"
    ensures a.UnionOf? ==> TypeToString(a) == "Union[" + JoinStrings(", ", Renderings(Members(a.members))) + "]"
  {
    match a
    case TupleOf(args) =>
      assert Renderings(args) == seq(|args|, i requires 0 <= i < |args| => TypeToString(args[i]));
    case UnionOf(ms) =>
      var xs := Members(ms);
      assert Renderings(xs) == seq(|xs|, i requires 0 <= i < |xs| => assert xs[i] in ms; TypeToString(xs[i]));
    case _ =>
  }

  /** A string contains itself */
  lemma ContainsSelf(s: string)
    ensures Contains(s, s)
  {
    ContainsInfix("", s, "");
    assert "" + s + "" == s;
  }

  /** The printed merge shows every child's printed annotation */
  lemma MergeShows(xs: seq<Anno>, k: nat)
    requires k < |xs|
    ensures Contains(TypeToString(Merge(xs)), TypeToString(xs[k]))
  {
    var d := Distinct(xs);
    if |d| == 1 {
      SingletonMembers(d, xs[0], xs[k]);
      ContainsSelf(TypeToString(xs[k]));
    } else {
      var ms := Members(d);
      assert xs[k] in ms;
      var j :| 0 <= j < |ms| && ms[j] == xs[k];
      var inner := JoinStrings(", ", Renderings(ms));
      TypeToStringUnfold(UnionOf(d));
      ContainsJoinPart(", ", Renderings(ms), j);
      ContainsInfix("Union[", inner, "]");
      ContainsTransitive(TypeToString(Merge(xs)), inner, TypeToString(xs[k]));
    }
  }

  /** `pre + s + post` contains whatever `s` contains */
  lemma ContainsWrapped(pre: string, s: string, post: string, t: string)
    requires Contains(s, t)
    ensures Contains(pre + s + post, t)
  {
    ContainsInfix(pre, s, post);
    ContainsTransitive(pre + s + post, s, t);
  }

  /** A name shown by one element's printed annotation is shown by the list's and the set's */
  lemma ShowsThroughMerge(xs: seq<PyData>, i: nat, t: string)
    requires i < |xs| && Contains(TypeToString(Annotation(xs[i])), t)
    ensures Contains(TypeToString(Annotation(List(xs))), t)
    ensures Contains(TypeToString(Annotation(Set(xs))), t)
  {
    AnnotationUnfold(List(xs));
    AnnotationUnfold(Set(xs));
    MergeShows(Annotations(xs), i);
    var m := TypeToString(Merge(Annotations(xs)));
    ContainsTransitive(m, TypeToString(Annotation(xs[i])), t);
    ContainsWrapped("list[", m, "]", t);
    ContainsWrapped("set[", m, "]", t);
  }

  /** A name shown by one element's printed annotation is shown by the tuple's */
  lemma ShowsThroughTuple(xs: seq<PyData>, i: nat, t: string)
    requires i < |xs| && Contains(TypeToString(Annotation(xs[i])), t)
    ensures Contains(TypeToString(Annotation(Tuple(xs))), t)
  {
    AnnotationUnfold(Tuple(xs));
    var rs := Renderings(Annotations(xs));
    TypeToStringUnfold(TupleOf(Annotations(xs)));
    ContainsJoinPart(", ", rs, i);
    ContainsTransitive(JoinStrings(", ", rs), rs[i], t);
    ContainsWrapped("tuple[", JoinStrings(", ", rs), "]", t);
  }

  /** A name shown by the printed key or value annotation is shown by the dict's */
  lemma ShowsThroughDictOf(k: Anno, v: Anno, t: string)
    requires Contains(TypeToString(k), t) || Contains(TypeToString(v), t)
    ensures Contains(TypeToString(DictOf(k, v)), t)
  {
    var ks, vs := TypeToString(k), TypeToString(v);
    if Contains(ks, t) {
      ContainsWrapped("dict[", ks, ", " + vs + "]", t);
      assert "dict[" + ks + (", " + vs + "]") == TypeToString(DictOf(k, v));
    } else {
      ContainsWrapped("dict[" + ks + ", ", vs, "]", t);
    }
  }

  /** A name shown by one key's or one value's printed annotation is shown by the dict's */
  lemma ShowsThroughDict(es: seq<(PyData, PyData)>, i: nat, t: string)
    requires i < |es|
    requires Contains(TypeToString(Annotation(es[i].0)), t) || Contains(TypeToString(Annotation(es[i].1)), t)
    ensures Contains(TypeToString(Annotation(Dict(es))), t)
  {
    var ks, vs := KeysOf(es), ValuesOf(es);
    AnnotationUnfold(Dict(es));
    MergeShows(Annotations(ks), i);
    MergeShows(Annotations(vs), i);
    var k, v := Merge(Annotations(ks)), Merge(Annotations(vs));
    if Contains(TypeToString(Annotation(es[i].0)), t) {
      ContainsTransitive(TypeToString(k), TypeToString(Annotation(ks[i])), t);
    } else {
      ContainsTransitive(TypeToString(v), TypeToString(Annotation(vs[i])), t);
    }
    ShowsThroughDictOf(k, v, t);
  }

  /** Every leaf type of a value is named in its printed annotation */
  lemma {:induction false} ShowsLeafTypes(d: PyData, t: string)
    requires t in LeafTypes(d)
    ensures Contains(TypeToString(Annotation(d)), t)
    decreases d
  {
    match d
    case NoneVal => ContainsSelf(t);
    case Scalar(_, _) => ContainsSelf(t);
    case List(xs) =>
      var i :| 0 <= i < |xs| && t in LeafTypes(xs[i]);
      ShowsLeafTypes(xs[i], t);
      ShowsThroughMerge(xs, i, t);
    case Set(xs) =>
      var i :| 0 <= i < |xs| && t in LeafTypes(xs[i]);
      ShowsLeafTypes(xs[i], t);
      ShowsThroughMerge(xs, i, t);
    case Tuple(xs) =>
      var i :| 0 <= i < |xs| && t in LeafTypes(xs[i]);
      ShowsLeafTypes(xs[i], t);
      ShowsThroughTuple(xs, i, t);
    case Dict(es) =>
      if i :| 0 <= i < |es| && t in LeafTypes(es[i].0) {
        ShowsLeafTypes(es[i].0, t);
        ShowsThroughDict(es, i, t);
      } else {
        var i :| 0 <= i < |es| && t in LeafTypes(es[i].1);
        ShowsLeafTypes(es[i].1, t);
        ShowsThroughDict(es, i, t);
      }
  }

  /** A union of two distinct annotations yields them in one order or the other */
  lemma TwoMembers(a: Anno, b: Anno)
    requires a != b
    ensures Members({a, b}) == [a, b] || Members({a, b}) == [b, a]
  {
    var ms := Members({a, b});
    assert a in ms && b in ms;
    assert |ms| == 2;
  }

  /** A union of two members prints as `Union[x, y]` in one order or the other */
  lemma PrintTwoMembers(a: Anno, b: Anno)
    requires a != b
    ensures TypeToString(UnionOf({a, b})) == "Union[" + TypeToString(a) + ", " + TypeToString(b) + "]"
         || TypeToString(UnionOf({a, b})) == "Union[" + TypeToString(b) + ", " + TypeToString(a) + "]"
  {
    TwoMembers(a, b);
    PrintUnionOfTwo({a, b});
  }

  /** A union with two members prints them in the order the set yields them */
  lemma PrintUnionOfTwo(s: set<Anno>)
    requires |s| == 2
    ensures var ms := Members(s);
            TypeToString(UnionOf(s)) == "Union[" + TypeToString(ms[0]) + ", " + TypeToString(ms[1]) + "]"
  {
    var ms := Members(s);
    TypeToStringUnfold(UnionOf(s));
    RenderingsTwo(ms);
    JoinTwo(", ", TypeToString(ms[0]), TypeToString(ms[1]));
  }

  lemma RenderingsTwo(xs: seq<Anno>)
    requires |xs| == 2
    ensures Renderings(xs) == [TypeToString(xs[0]), TypeToString(xs[1])]
  {
  }

  /** `sep.join` of two parts */
  lemma JoinTwo(sep: string, a: string, b: string)
    ensures JoinStrings(sep, [a, b]) == a + sep + b
  {
    assert [a, b][1..] == [b];
  }

  function Int(text: string): PyData { Scalar("int", text) }
  function Str(text: string): PyData { Scalar("str", text) }
  function Float(text: string): PyData { Scalar("float", text) }
  function Bool(text: string): PyData { Scalar("bool", text) }

  /** `test_primitive_types` and `test_empty_collections` */
  lemma LeavesAndEmptyContainers()
    ensures TypeToString(Annotation(NoneVal)) == "NoneType"
    ensures TypeToString(Annotation(Int("42"))) == "int"
    ensures TypeToString(Annotation(Str("'hello'"))) == "str"
    ensures TypeToString(Annotation(Float("3.14"))) == "float"
    ensures TypeToString(Annotation(Bool("True"))) == "bool"
    ensures TypeToString(Annotation(List([]))) == "list[Any]"
    ensures TypeToString(Annotation(Dict([]))) == "dict[Any, Any]"
    ensures TypeToString(Annotation(Tuple([]))) == "tuple[]"
    ensures TypeToString(Annotation(Set([]))) == "set[Any]"
  {
    TypeToStringUnfold(TupleOf([]));
  }

  /** `sep.join` of three parts */
  lemma JoinThree(sep: string, a: string, b: string, c: string)
    ensures JoinStrings(sep, [a, b, c]) == a + sep + b + sep + c
  {
    assert [a, b, c][1..] == [b, c];
    assert [b, c][1..] == [c];
    assert JoinStrings(sep, [b, c]) == b + sep + c;
    assert a + sep + (b + sep + c) == a + sep + b + sep + c;
  }

  /** A three-element tuple prints its elements' annotations in order */
  lemma ThreeTuple(x: PyData, y: PyData, z: PyData)
    ensures TypeToString(Annotation(Tuple([x, y, z])))
         == "tuple[" + TypeToString(Annotation(x)) + ", " + TypeToString(Annotation(y)) + ", " + TypeToString(Annotation(z)) + "]"
  {
    AnnotationUnfold(Tuple([x, y, z]));
    var named := Annotations([x, y, z]);
    assert named == [Annotation(x), Annotation(y), Annotation(z)];
    PrintTupleOfThree(named);
  }

  /** A three-argument tuple annotation prints its arguments in order */
  lemma PrintTupleOfThree(args: seq<Anno>)
    requires |args| == 3
    ensures TypeToString(TupleOf(args))
         == "tuple[" + TypeToString(args[0]) + ", " + TypeToString(args[1]) + ", " + TypeToString(args[2]) + "]"
  {
    TypeToStringUnfold(TupleOf(args));
    RenderingsThree(args);
    JoinThree(", ", TypeToString(args[0]), TypeToString(args[1]), TypeToString(args[2]));
  }

  lemma RenderingsThree(xs: seq<Anno>)
    requires |xs| == 3
    ensures Renderings(xs) == [TypeToString(xs[0]), TypeToString(xs[1]), TypeToString(xs[2])]
  {
  }

  /** A list and a set whose elements share one annotation print it as their argument */
  lemma UniformElements(items: seq<PyData>)
    requires items != [] && forall i :: 0 <= i < |items| ==> Annotation(items[i]) == Annotation(items[0])
    ensures TypeToString(Annotation(List(items))) == "list[" + TypeToString(Annotation(items[0])) + "]"
    ensures TypeToString(Annotation(Set(items))) == "set[" + TypeToString(Annotation(items[0])) + "]"
  {
    ElementAnnotation(items);
  }

  /** A dict whose keys share one annotation and whose values share one prints them as its arguments */
  lemma UniformEntries(es: seq<(PyData, PyData)>)
    requires es != []
    requires forall i :: 0 <= i < |es| ==> Annotation(es[i].0) == Annotation(es[0].0) && Annotation(es[i].1) == Annotation(es[0].1)
    ensures TypeToString(Annotation(Dict(es)))
         == "dict[" + TypeToString(Annotation(es[0].0)) + ", " + TypeToString(Annotation(es[0].1)) + "]"
  {
    DictAnnotation(es);
    ElementAnnotation(KeysOf(es));
    ElementAnnotation(ValuesOf(es));
  }

  /** `test_homogeneous_collections`, the list and the set */
  lemma HomogeneousListAndSet()
    ensures TypeToString(Annotation(List([Int("1"), Int("2"), Int("3")]))) == "list[int]"
    ensures TypeToString(Annotation(Set([Int("1"), Int("2"), Int("3")]))) == "set[int]"
  {
    UniformElements([Int("1"), Int("2"), Int("3")]);
  }

  /** `test_homogeneous_collections`, the dict */
  lemma HomogeneousDict()
    ensures TypeToString(Annotation(Dict([(Str("'a'"), Int("1")), (Str("'b'"), Int("2")), (Str("'c'"), Int("3"))]))) == "dict[str, int]"
  {
    UniformEntries([(Str("'a'"), Int("1")), (Str("'b'"), Int("2")), (Str("'c'"), Int("3"))]);
  }

  /** `test_homogeneous_collections`, the tuple */
  lemma HomogeneousTuple()
    ensures TypeToString(Annotation(Tuple([Int("1"), Int("2"), Int("3")]))) == "tuple[int, int, int]"
  {
    ThreeTuple(Int("1"), Int("2"), Int("3"));
  }

  /** The exact tuple case of `test_heterogeneous_collections`: one annotation per position, in order */
  lemma MixedTuple()
    ensures TypeToString(Annotation(Tuple([Int("1"), Str("'two'"), Float("3.0")]))) == "tuple[int, str, float]"
  {
    ThreeTuple(Int("1"), Str("'two'"), Float("3.0"));
  }

  /** A printed union starts with `Union[` */
  lemma UnionPrefix(ms: set<Anno>)
    ensures StartsWith(TypeToString(UnionOf(ms)), "Union[")
  {
    TypeToStringUnfold(UnionOf(ms));
    var inner := JoinStrings(", ", Renderings(Members(ms)));
    assert TypeToString(UnionOf(ms)) == "Union[" + (inner + "]");
  }

  /** Wrapping keeps a prefix behind the opening text */
  lemma StartsWithWrapped(pre: string, x: string, post: string, p: string)
    requires StartsWith(x, p)
    ensures StartsWith(pre + x + post, pre + p)
  {
    assert (pre + x + post)[..|pre + p|] == pre + x[..|p|];
  }

  /** Children that disagree merge into a union */
  lemma MergeDisagreeing(xs: seq<Anno>, i: nat)
    requires i < |xs| && xs[i] != xs[0]
    ensures Merge(xs) == UnionOf(Distinct(xs))
  {
    MergeCases(xs);
  }

  /** Children that disagree make a list print as `list[Union[...]]` */
  lemma MixedElementsList(items: seq<PyData>, i: nat)
    requires i < |items| && Annotation(items[i]) != Annotation(items[0])
    ensures StartsWith(TypeToString(Annotation(List(items))), "list[Union[")
  {
    AnnotationUnfold(List(items));
    var cs := Annotations(items);
    MergeDisagreeing(cs, i);
    UnionPrefix(Distinct(cs));
    StartsWithWrapped("list[", TypeToString(UnionOf(Distinct(cs))), "]", "Union[");
  }

  /** Children that disagree make a set print as `set[Union[...]]` */
  lemma MixedElementsSet(items: seq<PyData>, i: nat)
    requires i < |items| && Annotation(items[i]) != Annotation(items[0])
    ensures StartsWith(TypeToString(Annotation(Set(items))), "set[Union[")
  {
    AnnotationUnfold(Set(items));
    var cs := Annotations(items);
    MergeDisagreeing(cs, i);
    UnionPrefix(Distinct(cs));
    StartsWithWrapped("set[", TypeToString(UnionOf(Distinct(cs))), "]", "Union[");
  }

  /** The list case of `test_heterogeneous_collections`: a union naming every element type */
  lemma MixedList()
    ensures var r := TypeToString(Annotation(List([Int("1"), Str("'two'"), Float("3.0"), Bool("True")])));
            && StartsWith(r, "list[Union[")
            && Contains(r, "bool") && Contains(r, "float") && Contains(r, "int") && Contains(r, "str")
  {
    var items := [Int("1"), Str("'two'"), Float("3.0"), Bool("True")];
    MixedElementsList(items, 1);
    assert "bool" in LeafTypes(items[3]);
    assert "float" in LeafTypes(items[2]);
    assert "str" in LeafTypes(items[1]);
    assert "int" in LeafTypes(items[0]);
    ShowsLeafTypes(List(items), "bool");
    ShowsLeafTypes(List(items), "float");
    ShowsLeafTypes(List(items), "int");
    ShowsLeafTypes(List(items), "str");
  }

  /** A list whose elements share one annotation has it as its element annotation */
  lemma UniformElementsAnnotation(items: seq<PyData>)
    requires items != [] && forall i :: 0 <= i < |items| ==> Annotation(items[i]) == Annotation(items[0])
    ensures Annotation(List(items)) == ListOf(Annotation(items[0]))
  {
    ElementAnnotation(items);
  }

  /** A one-element list is annotated by its element */
  lemma OneElementList(x: PyData)
    ensures Annotation(List([x])) == ListOf(Annotation(x))
  {
    UniformElementsAnnotation([x]);
  }

  /** A two-element list whose elements agree is annotated by their annotation */
  lemma TwoAlikeElements(x: PyData, y: PyData)
    requires Annotation(x) == Annotation(y)
    ensures Annotation(List([x, y])) == ListOf(Annotation(x))
  {
    UniformElementsAnnotation([x, y]);
  }

  /** A one-entry dict is annotated by its key and its value */
  lemma OneEntryDict(k: PyData, v: PyData)
    ensures Annotation(Dict([(k, v)])) == DictOf(Annotation(k), Annotation(v))
  {
    var es := [(k, v)];
    DictAnnotation(es);
    assert KeysOf(es) == [k] && ValuesOf(es) == [v];
    OneElementList(k);
    OneElementList(v);
  }

  /** Two elements of different annotations make a two-member union */
  lemma TwoKindsOfElements(x: PyData, y: PyData)
    requires Annotation(x) != Annotation(y)
    ensures Annotation(List([x, y])) == ListOf(UnionOf({Annotation(x), Annotation(y)}))
  {
    var items := [x, y];
    assert Annotation(items[1]) != Annotation(items[0]);
    ElementAnnotation(items);
    forall a | a in ChildTypes(items) ensures a == Annotation(x) || a == Annotation(y) {
      var i :| 0 <= i < |items| && a == Annotation(items[i]);
    }
    assert Annotation(items[0]) in ChildTypes(items);
    assert Annotation(items[1]) in ChildTypes(items);
    assert ChildTypes(items) == {Annotation(x), Annotation(y)};
  }

  /** A list whose elements all print as `s` prints as `list[s]` */
  lemma ListStep(items: seq<PyData>, s: string)
    requires items != [] && forall i :: 0 <= i < |items| ==> Annotation(items[i]) == Annotation(items[0])
    requires TypeToString(Annotation(items[0])) == s
    ensures Annotation(List(items)) == ListOf(Annotation(items[0]))
    ensures TypeToString(Annotation(List(items))) == "list[" + s + "]"
  {
    UniformElementsAnnotation(items);
  }

  /** A one-entry dict with a string key whose value prints as `s` prints as `dict[str, s]` */
  lemma DictStep(key: string, v: PyData, s: string)
    requires TypeToString(Annotation(v)) == s
    ensures TypeToString(Annotation(Dict([(Str(key), v)]))) == "dict[str, " + s + "]"
  {
    OneEntryDict(Str(key), v);
    StrKeyedDictText(Annotation(v));
  }

  /** A dict annotation with `str` keys prints as `dict[str, ...]` */
  lemma StrKeyedDictText(a: Anno)
    ensures TypeToString(DictOf(Named("str"), a)) == "dict[str, " + TypeToString(a) + "]"
  {
    var s := TypeToString(a);
    assert TypeToString(DictOf(Named("str"), a)) == "dict[" + "str" + ", " + s + "]";
    assert "dict[" + "str" + ", " == "dict[str, ";
  }

  /** `test_nested_collections`, the list */
  lemma NestedList()
    ensures TypeToString(Annotation(List([List([Int("1"), Int("2")]), List([Int("3"), Int("4")])]))) == "list[list[int]]"
  {
    var a, b := List([Int("1"), Int("2")]), List([Int("3"), Int("4")]);
    TwoAlikeElements(Int("1"), Int("2"));
    TwoAlikeElements(Int("3"), Int("4"));
    TwoAlikeElements(a, b);
    assert Annotation(List([a, b])) == ListOf(ListOf(Named("int")));
    ListOfListOfIntText();
  }

  lemma ListOfListOfIntText()
    ensures TypeToString(ListOf(ListOf(Named("int")))) == "list[list[int]]"
  {
    assert TypeToString(ListOf(Named("int"))) == "list[" + "int" + "]";
  }

  /** A two-element tuple prints its elements' annotations in order */
  lemma TwoTuple(x: PyData, y: PyData)
    ensures TypeToString(Annotation(Tuple([x, y])))
         == "tuple[" + TypeToString(Annotation(x)) + ", " + TypeToString(Annotation(y)) + "]"
  {
    AnnotationUnfold(Tuple([x, y]));
    var named := Annotations([x, y]);
    assert named == [Annotation(x), Annotation(y)];
    PrintTupleOfTwo(named);
  }

  /** A two-argument tuple annotation prints its arguments in order */
  lemma PrintTupleOfTwo(args: seq<Anno>)
    requires |args| == 2
    ensures TypeToString(TupleOf(args)) == "tuple[" + TypeToString(args[0]) + ", " + TypeToString(args[1]) + "]"
  {
    TypeToStringUnfold(TupleOf(args));
    RenderingsTwo(args);
    JoinTwo(", ", TypeToString(args[0]), TypeToString(args[1]));
  }

  /** `test_nested_collections`, the tuple */
  lemma NestedTuple()
    ensures TypeToString(Annotation(Tuple([List([Int("1"), Int("2")]), List([Int("3"), Int("4")])])))
         == "tuple[list[int], list[int]]"
  {
    ListStep([Int("1"), Int("2")], "int");
    ListStep([Int("3"), Int("4")], "int");
    TwoTuple(List([Int("1"), Int("2")]), List([Int("3"), Int("4")]));
    NestedTupleText();
  }

  /** The printed nested tuple, spelled out */
  lemma NestedTupleText()
    ensures "tuple[" + ("list[" + "int" + "]") + ", " + ("list[" + "int" + "]") + "]" == "tuple[list[int], list[int]]"
  {
  }

  /** A dict whose keys print as `k` and whose values agree and print as `v` prints as `dict[k, v]` */
  lemma EntriesStep(es: seq<(PyData, PyData)>, k: string, v: string)
    requires es != []
    requires forall i :: 0 <= i < |es| ==> Annotation(es[i].0) == Annotation(es[0].0) && Annotation(es[i].1) == Annotation(es[0].1)
    requires TypeToString(Annotation(es[0].0)) == k && TypeToString(Annotation(es[0].1)) == v
    ensures TypeToString(Annotation(Dict(es))) == "dict[" + k + ", " + v + "]"
  {
    UniformEntries(es);
  }

  /** The dict case of `test_nested_collections` */
  lemma NestedDict()
    ensures TypeToString(Annotation(Dict([(Str("'a'"), List([Int("1"), Int("2")])), (Str("'b'"), List([Int("3"), Int("4")]))])))
         == "dict[str, list[int]]"
  {
    ListStep([Int("1"), Int("2")], "int");
    ListStep([Int("3"), Int("4")], "int");
    EntriesStep([(Str("'a'"), List([Int("1"), Int("2")])), (Str("'b'"), List([Int("3"), Int("4")]))], "str", "list[" + "int" + "]");
    NestedDictText();
  }

  /** The printed nested dict, spelled out */
  lemma NestedDictText()
    ensures "dict[" + "str" + ", " + ("list[" + "int" + "]") + "]" == "dict[str, list[int]]"
  {
  }

  /** A list of two elements with different annotations prints as a two-member union, in either order */
  lemma TwoKindsPrinted(x: PyData, y: PyData, sx: string, sy: string)
    requires Annotation(x) != Annotation(y)
    requires TypeToString(Annotation(x)) == sx && TypeToString(Annotation(y)) == sy
    ensures var r := TypeToString(Annotation(List([x, y])));
            r == "list[Union[" + sx + ", " + sy + "]]" || r == "list[Union[" + sy + ", " + sx + "]]"
  {
    TwoKindsOfElements(x, y);
    PrintTwoMembers(Annotation(x), Annotation(y));
    var u := TypeToString(UnionOf({Annotation(x), Annotation(y)}));
    assert TypeToString(Annotation(List([x, y]))) == "list[" + u + "]";
    if u == "Union[" + sx + ", " + sy + "]" {
      ListOfUnion(u, sx, sy);
    } else {
      ListOfUnion(u, sy, sx);
    }
  }

  /** `list[` around a printed two-member union */
  lemma ListOfUnion(u: string, a: string, b: string)
    requires u == "Union[" + a + ", " + b + "]"
    ensures "list[" + u + "]" == "list[Union[" + a + ", " + b + "]]"
  {
  }

  /** `test_mixed_nested_collections`, the list: a union of the two element annotations, in the order the set yields them */
  lemma MixedNestedList()
    ensures var r := TypeToString(Annotation(List([Int("1"), Dict([(Str("'a'"), Int("2"))])])));
            r == "list[Union[int, dict[str, int]]]" || r == "list[Union[dict[str, int], int]]"
  {
    DictStep("'a'", Int("2"), "int");
    OneEntryDict(Str("'a'"), Int("2"));
    TwoKindsPrinted(Int("1"), Dict([(Str("'a'"), Int("2"))]), "int", "dict[str, int]");
    IntFirstText();
    DictFirstText();
  }

  /** The printed form with `int` first, spelled out */
  lemma IntFirstText()
    ensures "list[Union[" + "int" + ", " + "dict[str, int]" + "]]" == "list[Union[int, dict[str, int]]]"
  {
  }

  /** The printed form with the dict first, spelled out */
  lemma DictFirstText()
    ensures "list[Union[" + "dict[str, int]" + ", " + "int" + "]]" == "list[Union[dict[str, int], int]]"
  {
  }

  /** `test_mixed_nested_collections`, the tuple: exact, since a tuple keeps its positions */
  lemma MixedNestedTuple()
    ensures TypeToString(Annotation(Tuple([Int("1"), List([Int("2"), Int("3")]), Dict([(Str("'a'"), Int("4"))])])))
         == "tuple[int, list[int], dict[str, int]]"
  {
    var l := List([Int("2"), Int("3")]);
    var d := Dict([(Str("'a'"), Int("4"))]);
    ListStep([Int("2"), Int("3")], "int");
    DictStep("'a'", Int("4"), "int");
    assert TypeToString(Annotation(l)) == "list[" + "int" + "]";
    ThreeTuple(Int("1"), l, d);
    MixedNestedTupleText();
  }

  lemma MixedNestedTupleText()
    ensures "tuple[" + "int" + ", " + "list[" + "int" + "]" + ", " + "dict[str, " + "int" + "]" + "]"
         == "tuple[int, list[int], dict[str, int]]"
  {
  }

  /** `depth` empty lists, each the only element of the next */
  function NestedLists(depth: nat): PyData {
    if depth == 0 then List([]) else List([NestedLists(depth - 1)])
  }

  /** `list[` written `depth` times around `list[Any]` */
  function NestedListString(depth: nat): string {
    if depth == 0 then "list[Any]" else "list[" + NestedListString(depth - 1) + "]"
  }

  /** A one-element list whose element prints as `s` prints as `list[s]` */
  lemma OneElementListShown(x: PyData, s: string)
    requires TypeToString(Annotation(x)) == s
    ensures TypeToString(Annotation(List([x]))) == "list[" + s + "]"
  {
    OneElementList(x);
  }

  /** One level of nesting, for both the lists and their printed form */
  lemma NestedListsUnfold(below: nat)
    ensures NestedLists(below + 1) == List([NestedLists(below)])
    ensures NestedListString(below + 1) == "list[" + NestedListString(below) + "]"
  {
  }

  /** Nested one-element lists print one `list[...]` per level, down to `list[Any]` */
  lemma {:induction false} DeepLists(depth: nat)
    ensures TypeToString(Annotation(NestedLists(depth))) == NestedListString(depth)
  {
    if depth > 0 {
      var below: nat := depth - 1;
      DeepLists(below);
      ListLevel(below);
      assert depth == below + 1;
    }
  }

  /** One more level of nesting adds one `list[...]` */
  lemma ListLevel(below: nat)
    requires TypeToString(Annotation(NestedLists(below))) == NestedListString(below)
    ensures TypeToString(Annotation(NestedLists(below + 1))) == NestedListString(below + 1)
  {
    NestedListsUnfold(below);
    OneElementListShown(NestedLists(below), NestedListString(below));
  }

  /** A dict nested under each of `keys` in turn, the innermost one empty */
  function NestedDicts(keys: seq<string>): PyData {
    if keys == [] then Dict([]) else Dict([(Str(keys[0]), NestedDicts(keys[1..]))])
  }

  /** `dict[str, ` written `depth` times around `dict[Any, Any]` */
  function NestedDictString(depth: nat): string {
    if depth == 0 then "dict[Any, Any]" else "dict[str, " + NestedDictString(depth - 1) + "]"
  }

  /** One level of nesting, for both the dicts and their printed form */
  lemma NestedDictsUnfold(keys: seq<string>)
    requires keys != []
    ensures NestedDicts(keys) == Dict([(Str(keys[0]), NestedDicts(keys[1..]))])
    ensures NestedDictString(|keys|) == "dict[str, " + NestedDictString(|keys| - 1) + "]"
  {
  }

  /** Nested one-entry dicts with string keys print one `dict[str, ...]` per key, down to `dict[Any, Any]` */
  lemma {:induction false} DeepDicts(keys: seq<string>)
    ensures TypeToString(Annotation(NestedDicts(keys))) == NestedDictString(|keys|)
  {
    if keys == [] {
      EmptyDictText();
    } else {
      var rest := keys[1..];
      var inner := NestedDictString(|rest|);
      DeepDicts(rest);
      DictStep(keys[0], NestedDicts(rest), inner);
      NestedDictsUnfold(keys);
    }
  }

  lemma EmptyDictText()
    ensures TypeToString(Annotation(NestedDicts([]))) == NestedDictString(0)
  {
    assert TypeToString(DictOf(AnyT, AnyT)) == "dict[" + "Any" + ", " + "Any" + "]";
  }

  /**
   * `test_edge_cases`: five empty lists nested in one another print as
   * `list[` four times around `list[Any]`, written here level by level.
   */
  lemma DeepNestingLists()
    ensures TypeToString(Annotation(List([List([List([List([List([])])])])])))
         == "list[" + ("list[" + ("list[" + ("list[" + "list[Any]" + "]") + "]") + "]") + "]"
  {
    DeepLists(4);
    assert NestedLists(4) == List([List([List([List([List([])])])])]);
  }

  /**
   * `test_edge_cases`: five dicts nested under the keys 'a' to 'd' print as
   * `dict[str, ` four times around `dict[Any, Any]`, written here level by level.
   */
  lemma DeepNestingDicts()
    ensures TypeToString(Annotation(Dict([(Str("'a'"), Dict([(Str("'b'"), Dict([(Str("'c'"), Dict([(Str("'d'"), Dict([]))]))]))]))])))
         == "dict[str, " + ("dict[str, " + ("dict[str, " + ("dict[str, " + "dict[Any, Any]" + "]") + "]") + "]") + "]"
  {
    FourNestedDictsText();
    DeepDicts(["'a'", "'b'", "'c'", "'d'"]);
    assert NestedDicts(["'a'", "'b'", "'c'", "'d'"])
        == Dict([(Str("'a'"), Dict([(Str("'b'"), Dict([(Str("'c'"), Dict([(Str("'d'"), Dict([]))]))]))]))]);
  }

  /** The printed form of four nested dicts around an empty one, level by level */
  lemma FourNestedDictsText()
    ensures NestedDictString(4) == "dict[str, " + ("dict[str, " + ("dict[str, " + ("dict[str, " + "dict[Any, Any]" + "]") + "]") + "]") + "]"
  {
  }

  /** A list shows the whole printed annotation of each of its elements */
  lemma ListShowsElement(items: seq<PyData>, k: nat, s: string)
    requires k < |items| && TypeToString(Annotation(items[k])) == s
    ensures Contains(TypeToString(Annotation(List(items))), s)
  {
    ContainsSelf(s);
    ShowsThroughMerge(items, k, s);
  }

  /** A prefix of a prefix is a prefix */
  lemma StartsWithShorter(r: string, p: string, q: string)
    requires StartsWith(r, p) && StartsWith(p, q)
    ensures StartsWith(r, q)
  {
    assert r[..|q|] == p[..|q|];
  }

  /** `test_edge_cases`: a list of four different empty containers */
  lemma MixedEmptyContainers()
    ensures var r := TypeToString(Annotation(List([Dict([]), List([]), Tuple([]), Set([])])));
            && StartsWith(r, "list[Union")
            && Contains(r, "dict[Any, Any]") && Contains(r, "list[Any]") && Contains(r, "tuple[]") && Contains(r, "set[Any]")
  {
    var items := [Dict([]), List([]), Tuple([]), Set([])];
    LeavesAndEmptyContainers();
    MixedElementsList(items, 1);
    StartsWithShorter(TypeToString(Annotation(List(items))), "list[Union[", "list[Union");
    ListShowsElement(items, 0, "dict[Any, Any]");
    ListShowsElement(items, 1, "list[Any]");
    ListShowsElement(items, 2, "tuple[]");
    ListShowsElement(items, 3, "set[Any]");
  }

  // ---------------------------------------------------------------------
  // Dicts whose keys agree, and dicts whose keys or values disagree

  /** A dict whose keys share one annotation printed `k` prints as `dict[k, ...` */
  lemma UniformKeysPrefix(es: seq<(PyData, PyData)>, k: string)
    requires es != []
    requires forall j :: 0 <= j < |es| ==> Annotation(es[j].0) == Annotation(es[0].0)
    requires TypeToString(Annotation(es[0].0)) == k
    ensures Annotation(Dict(es)).DictOf? && Annotation(Dict(es)).key == Annotation(es[0].0)
    ensures StartsWith(TypeToString(Annotation(Dict(es))), "dict[" + k + ", ")
  {
    DictAnnotation(es);
    UniformElementsAnnotation(KeysOf(es));
    var v := TypeToString(Annotation(Dict(es)).value);
    assert TypeToString(Annotation(Dict(es))) == "dict[" + k + ", " + v + "]";
    StartsWithFront("dict[" + k + ", ", v, "]");
  }

  /** A string starts with its own first part */
  lemma StartsWithFront(p: string, x: string, t: string)
    ensures StartsWith(p + x + t, p)
  {
    assert (p + x + t)[..|p|] == p;
  }

  /** A dict's annotation whose value argument is a union prints as `dict[k, Union[...` */
  lemma DictOfUnionPrefix(k: Anno, ms: set<Anno>)
    ensures StartsWith(TypeToString(DictOf(k, UnionOf(ms))), "dict[" + TypeToString(k) + ", " + "Union[")
  {
    UnionPrefix(ms);
    StartsWithWrapped("dict[" + TypeToString(k) + ", ", TypeToString(UnionOf(ms)), "]", "Union[");
  }

  /** A dict's annotation whose key argument is a union prints as `dict[Union[...` */
  lemma UnionOfKeysPrefix(ms: set<Anno>, v: Anno)
    ensures StartsWith(TypeToString(DictOf(UnionOf(ms), v)), "dict[" + "Union[")
  {
    var u := TypeToString(UnionOf(ms));
    UnionPrefix(ms);
    StartsWithWrapped("dict[", u, ", " + TypeToString(v) + "]", "Union[");
    assert "dict[" + u + ", " + TypeToString(v) + "]" == "dict[" + u + (", " + TypeToString(v) + "]");
  }

  /** Keys that agree and values that disagree: the key annotation and the union of the values' */
  lemma MixedValuesAnnotation(es: seq<(PyData, PyData)>, i: nat)
    requires es != [] && i < |es|
    requires forall j :: 0 <= j < |es| ==> Annotation(es[j].0) == Annotation(es[0].0)
    requires Annotation(es[i].1) != Annotation(es[0].1)
    ensures Annotation(Dict(es)) == DictOf(Annotation(es[0].0), UnionOf(ChildTypes(ValuesOf(es))))
  {
    var ks, vs := KeysOf(es), ValuesOf(es);
    DictAnnotation(es);
    UniformElementsAnnotation(ks);
    assert Annotation(vs[i]) != Annotation(vs[0]);
    ElementAnnotation(vs);
  }

  /** Keys that disagree: the key annotation is the union of the keys' */
  lemma MixedKeysAnnotation(es: seq<(PyData, PyData)>, i: nat)
    requires es != [] && i < |es| && Annotation(es[i].0) != Annotation(es[0].0)
    ensures Annotation(Dict(es)).DictOf? && Annotation(Dict(es)).key == UnionOf(ChildTypes(KeysOf(es)))
  {
    var ks := KeysOf(es);
    DictAnnotation(es);
    assert Annotation(ks[i]) != Annotation(ks[0]);
    ElementAnnotation(ks);
  }

  /** A leaf type of one value is a leaf type of the dict */
  lemma LeafOfValue(es: seq<(PyData, PyData)>, i: nat, t: string)
    requires i < |es| && t in LeafTypes(es[i].1)
    ensures t in LeafTypes(Dict(es))
  {
  }

  /** A leaf type of one key is a leaf type of the dict */
  lemma LeafOfKey(es: seq<(PyData, PyData)>, i: nat, t: string)
    requires i < |es| && t in LeafTypes(es[i].0)
    ensures t in LeafTypes(Dict(es))
  {
  }

  /** A leaf type of one element is a leaf type of the list */
  lemma LeafOfItem(xs: seq<PyData>, i: nat, t: string)
    requires i < |xs| && t in LeafTypes(xs[i])
    ensures t in LeafTypes(List(xs))
  {
  }

  /** The dict case of `test_heterogeneous_collections` */
  lemma MixedDict()
    ensures var r := TypeToString(Annotation(Dict([(Str("'a'"), Int("1")), (Str("'b'"), Str("'two'")), (Str("'c'"), Float("3.0"))])));
            && StartsWith(r, "dict[str, Union[")
            && Contains(r, "float") && Contains(r, "int") && Contains(r, "str")
  {
    var es := [(Str("'a'"), Int("1")), (Str("'b'"), Str("'two'")), (Str("'c'"), Float("3.0"))];
    MixedValuesAnnotation(es, 1);
    DictOfUnionPrefix(Named("str"), ChildTypes(ValuesOf(es)));
    MixedDictText();
    LeafOfValue(es, 2, "float");
    LeafOfValue(es, 0, "int");
    LeafOfValue(es, 1, "str");
    ShowsLeafTypes(Dict(es), "float");
    ShowsLeafTypes(Dict(es), "int");
    ShowsLeafTypes(Dict(es), "str");
  }

  /** The expected prefix, spelled out */
  lemma MixedDictText()
    ensures "dict[" + "str" + ", " + "Union[" == "dict[str, Union["
  {
  }

  /** The set case of `test_heterogeneous_collections` */
  lemma MixedSet()
    ensures var r := TypeToString(Annotation(Set([Int("1"), Str("'two'"), Float("3.0")])));
            && StartsWith(r, "set[Union[")
            && Contains(r, "float") && Contains(r, "int") && Contains(r, "str")
  {
    var items := [Int("1"), Str("'two'"), Float("3.0")];
    MixedElementsSet(items, 1);
    assert "float" in LeafTypes(items[2]);
    assert "int" in LeafTypes(items[0]);
    assert "str" in LeafTypes(items[1]);
    ShowsLeafTypes(Set(items), "float");
    ShowsLeafTypes(Set(items), "int");
    ShowsLeafTypes(Set(items), "str");
  }

  /** `test_mixed_key_types` */
  lemma MixedKeys()
    ensures var r := TypeToString(Annotation(Dict([(Int("1"), Str("'one'")), (Str("'two'"), Int("2")), (Float("3.0"), Str("'three'"))])));
            && StartsWith(r, "dict[Union")
            && Contains(r, "int") && Contains(r, "str") && Contains(r, "float")
  {
    var es := [(Int("1"), Str("'one'")), (Str("'two'"), Int("2")), (Float("3.0"), Str("'three'"))];
    MixedKeysAnnotation(es, 1);
    UnionOfKeysPrefix(ChildTypes(KeysOf(es)), Annotation(Dict(es)).value);
    StartsWithShorter(TypeToString(Annotation(Dict(es))), "dict[" + "Union[", "dict[Union");
    LeafOfKey(es, 0, "int");
    LeafOfKey(es, 1, "str");
    LeafOfKey(es, 2, "float");
    ShowsLeafTypes(Dict(es), "int");
    ShowsLeafTypes(Dict(es), "str");
    ShowsLeafTypes(Dict(es), "float");
  }

  /** Two entries with agreeing keys and disagreeing values: the value annotation is a two-member union */
  lemma TwoKindsOfValues(k1: PyData, v1: PyData, k2: PyData, v2: PyData)
    requires Annotation(k1) == Annotation(k2) && Annotation(v1) != Annotation(v2)
    ensures Annotation(Dict([(k1, v1), (k2, v2)])) == DictOf(Annotation(k1), UnionOf({Annotation(v1), Annotation(v2)}))
  {
    var es := [(k1, v1), (k2, v2)];
    DictAnnotation(es);
    PairEntries(k1, v1, k2, v2);
    TwoAlikeElements(k1, k2);
    TwoKindsOfElements(v1, v2);
  }

  /** The keys and the values of a two-entry dict */
  lemma PairEntries(k1: PyData, v1: PyData, k2: PyData, v2: PyData)
    ensures KeysOf([(k1, v1), (k2, v2)]) == [k1, k2] && ValuesOf([(k1, v1), (k2, v2)]) == [v1, v2]
  {
  }

  /** `dict[k, ` around a printed two-member union */
  lemma DictOfUnion(u: string, k: string, a: string, b: string)
    requires u == "Union[" + a + ", " + b + "]"
    ensures "dict[" + k + ", " + u + "]" == "dict[" + k + ", Union[" + a + ", " + b + "]]"
  {
  }

  /**
   * The dict case of `test_mixed_nested_collections`: the values' union of
   * `int` and `list[int]`, printed in the order the set yields them.
   */
  lemma MixedNestedDict()
    ensures Annotation(Dict([(Str("'a'"), Int("1")), (Str("'b'"), List([Int("2"), Int("3")]))]))
         == DictOf(Named("str"), UnionOf({Named("int"), ListOf(Named("int"))}))
    ensures var r := TypeToString(Annotation(Dict([(Str("'a'"), Int("1")), (Str("'b'"), List([Int("2"), Int("3")]))])));
            r == "dict[str, Union[int, list[int]]]" || r == "dict[str, Union[list[int], int]]"
  {
    TwoAlikeElements(Int("2"), Int("3"));
    TwoKindsOfValues(Str("'a'"), Int("1"), Str("'b'"), List([Int("2"), Int("3")]));
    IntOrIntListValuesText();
  }

  /** How a dict from `str` to the union of `int` and `list[int]` prints, in either order of the union */
  lemma IntOrIntListValuesText()
    ensures var r := TypeToString(DictOf(Named("str"), UnionOf({Named("int"), ListOf(Named("int"))})));
            r == "dict[str, Union[int, list[int]]]" || r == "dict[str, Union[list[int], int]]"
  {
    var a := Named("int");
    var b := ListOf(Named("int"));
    PrintTwoMembers(a, b);
    assert TypeToString(b) == "list[int]";
    var u := TypeToString(UnionOf({a, b}));
    assert TypeToString(DictOf(Named("str"), UnionOf({a, b}))) == "dict[" + "str" + ", " + u + "]";
    if u == "Union[" + "int" + ", " + "list[int]" + "]" {
      DictOfUnion(u, "str", "int", "list[int]");
      IntFirstValuesText();
    } else {
      DictOfUnion(u, "str", "list[int]", "int");
      ListFirstValuesText();
    }
  }

  /** The printed form with `int` first, spelled out */
  lemma IntFirstValuesText()
    ensures "dict[" + "str" + ", Union[" + "int" + ", " + "list[int]" + "]]" == "dict[str, Union[int, list[int]]]"
  {
  }

  /** The printed form with the list first, spelled out */
  lemma ListFirstValuesText()
    ensures "dict[" + "str" + ", Union[" + "list[int]" + ", " + "int" + "]]" == "dict[str, Union[list[int], int]]"
  {
  }

  /**
   * The third case of `test_edge_cases`, `[1, [2, [3, [4]]]]`: at each level a
   * union of `int` and the next list's annotation, down to `list[int]`. How it
   * prints depends on the order each union yields its members in.
   */
  lemma NestedUnions()
    ensures Annotation(List([Int("1"), List([Int("2"), List([Int("3"), List([Int("4")])])])]))
         == ListOf(UnionOf({Named("int"), ListOf(UnionOf({Named("int"), ListOf(UnionOf({Named("int"), ListOf(Named("int"))}))}))}))
  {
    var l4 := List([Int("4")]);
    var l3 := List([Int("3"), l4]);
    var l2 := List([Int("2"), l3]);
    OneElementList(Int("4"));
    TwoKindsOfElements(Int("3"), l4);
    TwoKindsOfElements(Int("2"), l3);
    TwoKindsOfElements(Int("1"), l2);
  }

  // ---------------------------------------------------------------------
  // The deeply nested and hierarchical examples

  /** Two agreeing elements: the list prints as `list[` followed by what the element's annotation starts with */
  lemma AlikePairPrefix(x: PyData, y: PyData, p: string)
    requires Annotation(x) == Annotation(y) && StartsWith(TypeToString(Annotation(x)), p)
    ensures StartsWith(TypeToString(Annotation(List([x, y]))), "list[" + p)
  {
    TwoAlikeElements(x, y);
    StartsWithWrapped("list[", TypeToString(Annotation(x)), "]", p);
  }

  /** A one-entry dict with a string key prints as `dict[str, ` followed by what its value's annotation starts with */
  lemma StrKeyEntryPrefix(key: string, v: PyData, p: string)
    requires StartsWith(TypeToString(Annotation(v)), p)
    ensures StartsWith(TypeToString(Annotation(Dict([(Str(key), v)]))), "dict[" + "str" + ", " + p)
  {
    OneEntryDict(Str(key), v);
    assert TypeToString(Named("str")) == "str";
    StartsWithWrapped("dict[" + "str" + ", ", TypeToString(Annotation(v)), "]", p);
  }

  /** Every non-empty list prints as `list[...]`, so its printed annotation contains `list` */
  lemma ListShowsList(items: seq<PyData>)
    requires items != []
    ensures Contains(TypeToString(Annotation(List(items))), "list")
  {
    AnnotationUnfold(List(items));
    var m := TypeToString(Merge(Annotations(items)));
    assert TypeToString(Annotation(List(items))) == "" + "list" + ("[" + m + "]");
    ContainsInfix("", "list", "[" + m + "]");
  }

  /** One user record of `test_deeply_nested_collections` */
  function User(name: string, s1: string, s2: string, joined: string): PyData {
    Dict([(Str("'name'"), Str(name)),
          (Str("'scores'"), List([Int(s1), Int(s2)])),
          (Str("'metadata'"), Dict([(Str("'joined'"), Str(joined))]))])
  }

  /** User records differ only in their leaf values */
  lemma UserSameShape(name: string, s1: string, s2: string, joined: string)
    ensures SameShape(User(name, s1, s2, joined), User("", "", "", ""))
  {
    var u := User(name, s1, s2, joined);
    var v := User("", "", "", "");
    assert SameShapes(u.entries[1].1.items, v.entries[1].1.items);
    assert SameShape(u.entries[2].1, v.entries[2].1) by {
      var m := u.entries[2].1.entries;
      var n := v.entries[2].1.entries;
      assert SameShape(m[0].0, n[0].0) && SameShape(m[0].1, n[0].1);
    }
    forall i | 0 <= i < 3
      ensures SameShape(u.entries[i].0, v.entries[i].0) && SameShape(u.entries[i].1, v.entries[i].1)
    {
    }
  }

  /** A user record's leaves include `int` */
  lemma UserHasInt(name: string, s1: string, s2: string, joined: string)
    ensures "int" in LeafTypes(User(name, s1, s2, joined))
  {
    LeafOfItem([Int(s1), Int(s2)], 0, "int");
    LeafOfValue(User(name, s1, s2, joined).entries, 1, "int");
  }

  /** A user record's annotation does not depend on the record's values and starts with `dict[str, ` */
  lemma UserShape(name: string, s1: string, s2: string, joined: string)
    ensures Annotation(User(name, s1, s2, joined)) == Annotation(User("", "", "", ""))
    ensures StartsWith(TypeToString(Annotation(User(name, s1, s2, joined))), "dict[" + "str" + ", ")
  {
    var u := User(name, s1, s2, joined);
    UserSameShape(name, s1, s2, joined);
    ShapeDetermines(u, User("", "", "", ""));
    UniformKeysPrefix(u.entries, "str");
  }

  /** The expected prefix is a prefix of what the nesting gives */
  lemma UsersText()
    ensures StartsWith("dict[" + "str" + ", " + ("list[" + ("dict[" + "str" + ", ")), "dict[str, list[dict[str")
  {
  }

  /** `test_deeply_nested_collections` (all but its check that no field name is printed) */
  lemma UsersData()
    ensures var r := TypeToString(Annotation(Dict([(Str("'users'"), List([User("'Alice'", "98", "95", "'2023-01-01'"),
                                                                        User("'Bob'", "85", "90", "'2023-02-15'")]))])));
            && StartsWith(r, "dict[str, list[dict[str")
            && Contains(r, "str") && Contains(r, "int")
  {
    var alice := User("'Alice'", "98", "95", "'2023-01-01'");
    var bob := User("'Bob'", "85", "90", "'2023-02-15'");
    var users := [alice, bob];
    var top := Dict([(Str("'users'"), List(users))]);
    UserShape("'Alice'", "98", "95", "'2023-01-01'");
    UserShape("'Bob'", "85", "90", "'2023-02-15'");
    UserHasInt("'Alice'", "98", "95", "'2023-01-01'");
    AlikePairPrefix(alice, bob, "dict[" + "str" + ", ");
    StrKeyEntryPrefix("'users'", List(users), "list[" + ("dict[" + "str" + ", "));
    UsersText();
    StartsWithShorter(TypeToString(Annotation(top)), "dict[" + "str" + ", " + ("list[" + ("dict[" + "str" + ", ")),
                      "dict[str, list[dict[str");
    LeafOfKey(top.entries, 0, "str");
    LeafOfItem(users, 0, "int");
    LeafOfValue(top.entries, 0, "int");
    ShowsLeafTypes(top, "str");
    ShowsLeafTypes(top, "int");
  }

  /** The `metadata` entry of `test_complex_hierarchical_structures` */
  function ProjectMetadata(): PyData {
    Dict([(Str("'created'"), Str("'2023-01-01'")),
          (Str("'tags'"), List([Str("'urgent'"), Str("'development'")])),
          (Str("'stats'"), Dict([(Str("'completion'"), Float("0.75")), (Str("'hours'"), Int("120"))]))])
  }

  /** The `tasks` entry of `test_complex_hierarchical_structures` */
  function ProjectTasks(): PyData {
    List([Dict([(Str("'id'"), Int("101")), (Str("'status'"), Str("'complete'")),
                (Str("'subtasks'"), List([Dict([(Str("'id'"), Int("1001"))]), Dict([(Str("'id'"), Int("1002"))])]))]),
          Dict([(Str("'id'"), Int("102")), (Str("'status'"), Str("'pending'")),
                (Str("'assignees'"), List([Str("'Alice'"), Str("'Bob'")]))])])
  }

  /** The project of `test_complex_hierarchical_structures` */
  function Project(): PyData {
    Dict([(Str("'id'"), Int("1")), (Str("'name'"), Str("'Project X'")),
          (Str("'tasks'"), ProjectTasks()), (Str("'metadata'"), ProjectMetadata())])
  }

  /** `float` is a leaf type of the project's metadata */
  lemma MetadataHasFloat()
    ensures "float" in LeafTypes(ProjectMetadata())
  {
    var stats := [(Str("'completion'"), Float("0.75")), (Str("'hours'"), Int("120"))];
    LeafOfValue(stats, 0, "float");
    LeafOfValue(ProjectMetadata().entries, 2, "float");
  }

  /** The expected prefix, spelled out */
  lemma ProjectText()
    ensures StartsWith("dict[" + "str" + ", " + "Union[", "dict[str, Union")
  {
  }

  /** `test_complex_hierarchical_structures` */
  lemma ComplexHierarchy()
    ensures var r := TypeToString(Annotation(Project()));
            && StartsWith(r, "dict[str, Union")
            && Contains(r, "float") && Contains(r, "int") && Contains(r, "str") && Contains(r, "list")
  {
    ComplexHierarchyPrefix();
    ComplexHierarchyLeaves();
  }

  /** The project's values differ in type, so its annotation prints as a dict of `str` to a union */
  lemma ComplexHierarchyPrefix()
    ensures StartsWith(TypeToString(Annotation(Project())), "dict[str, Union")
  {
    var es := Project().entries;
    var r := TypeToString(Annotation(Project()));
    MixedValuesAnnotation(es, 1);
    DictOfUnionPrefix(Named("str"), ChildTypes(ValuesOf(es)));
    ProjectText();
    StartsWithShorter(r, "dict[" + "str" + ", " + "Union[", "dict[str, Union");
  }

  /** The project's leaf types and its task list all show in its printed annotation */
  lemma ComplexHierarchyLeaves()
    ensures var r := TypeToString(Annotation(Project()));
            Contains(r, "float") && Contains(r, "int") && Contains(r, "str") && Contains(r, "list")
  {
    var es := Project().entries;
    MetadataHasFloat();
    LeafOfValue(es, 3, "float");
    LeafOfValue(es, 0, "int");
    LeafOfValue(es, 1, "str");
    ShowsLeafTypes(Project(), "float");
    ShowsLeafTypes(Project(), "int");
    ShowsLeafTypes(Project(), "str");
    ListShowsList(ProjectTasks().items);
    ShowsThroughDict(es, 2, "list");
  }

  // ---------------------------------------------------------------------
  // What the printed annotation can hold

  /** No leaf type name of the value holds character `c` (`None` counts as `NoneType`) */
  predicate LeavesAvoid(d: PyData, c: char)
    decreases d
  {
    match d
    case NoneVal => c !in "NoneType"
    case Scalar(t, _) => c !in t
    case Dict(es) => forall i :: 0 <= i < |es| ==> LeavesAvoid(es[i].0, c) && LeavesAvoid(es[i].1, c)
    case List(xs) => forall i :: 0 <= i < |xs| ==> LeavesAvoid(xs[i], c)
    case Tuple(xs) => forall i :: 0 <= i < |xs| ==> LeavesAvoid(xs[i], c)
    case Set(xs) => forall i :: 0 <= i < |xs| ==> LeavesAvoid(xs[i], c)
  }

  /** No class name inside the annotation holds character `c` */
  predicate NamesAvoid(a: Anno, c: char)
    decreases a
  {
    match a
    case AnyT => true
    case Named(n) => c !in n
    case DictOf(k, v) => NamesAvoid(k, c) && NamesAvoid(v, c)
    case ListOf(e) => NamesAvoid(e, c)
    case TupleOf(args) => forall i :: 0 <= i < |args| ==> NamesAvoid(args[i], c)
    case SetOf(e) => NamesAvoid(e, c)
    case UnionOf(ms) => forall m :: m in ms ==> NamesAvoid(m, c)
  }

  /** A character of none of the fixed pieces `type_to_string` writes around class names */
  predicate NotPrinterText(c: char) {
    c !in "Any" && c !in "dict[" && c !in ", " && c !in "]" && c !in "list[" && c !in "tuple[" && c !in "set[" && c !in "Union["
  }

  /** Merging annotations that avoid `c` gives one that avoids it */
  lemma MergeAvoids(xs: seq<Anno>, c: char)
    requires |xs| > 0 && forall i :: 0 <= i < |xs| ==> NamesAvoid(xs[i], c)
    ensures NamesAvoid(Merge(xs), c)
  {
    forall m | m in Distinct(xs) ensures NamesAvoid(m, c) {
      var i :| 0 <= i < |xs| && xs[i] == m;
    }
  }

  /** The annotation names only the leaves' types: a character no leaf type holds is in no class name of it */
  lemma {:induction false} AnnotationAvoids(d: PyData, c: char)
    requires LeavesAvoid(d, c)
    ensures NamesAvoid(Annotation(d), c)
    decreases d
  {
    AnnotationUnfold(d);
    match d
    case NoneVal =>
    case Scalar(_, _) =>
    case Dict(es) =>
      if es != [] {
        var ks := Annotations(KeysOf(es));
        var vs := Annotations(ValuesOf(es));
        forall i | 0 <= i < |es| ensures NamesAvoid(ks[i], c) && NamesAvoid(vs[i], c) {
          AnnotationAvoids(es[i].0, c);
          AnnotationAvoids(es[i].1, c);
        }
        MergeAvoids(ks, c);
        MergeAvoids(vs, c);
      }
    case List(xs) =>
      forall i | 0 <= i < |xs| ensures NamesAvoid(Annotation(xs[i]), c) {
        AnnotationAvoids(xs[i], c);
      }
      if xs != [] {
        MergeAvoids(Annotations(xs), c);
      }
    case Tuple(xs) =>
      forall i | 0 <= i < |xs| ensures NamesAvoid(Annotation(xs[i]), c) {
        AnnotationAvoids(xs[i], c);
      }
    case Set(xs) =>
      forall i | 0 <= i < |xs| ensures NamesAvoid(Annotation(xs[i]), c) {
        AnnotationAvoids(xs[i], c);
      }
      if xs != [] {
        MergeAvoids(Annotations(xs), c);
      }
  }

  /** The printed annotation holds only characters of its class names and of the printer's fixed pieces */
  lemma {:induction false} PrintedAvoids(a: Anno, c: char)
    requires NotPrinterText(c) && NamesAvoid(a, c)
    ensures c !in TypeToString(a)
    decreases a
  {
    match a
    case AnyT =>
    case Named(_) =>
    case DictOf(k, v) =>
      PrintedAvoids(k, c);
      PrintedAvoids(v, c);
    case ListOf(e) => PrintedAvoids(e, c);
    case SetOf(e) => PrintedAvoids(e, c);
    case TupleOf(args) =>
      TypeToStringUnfold(a);
      var rs := Renderings(args);
      forall i | 0 <= i < |rs| ensures c !in rs[i] {
        PrintedAvoids(args[i], c);
      }
      JoinAvoids(", ", rs, c);
    case UnionOf(ms) =>
      TypeToStringUnfold(a);
      var xs := Members(ms);
      var rs := Renderings(xs);
      forall i | 0 <= i < |rs| ensures c !in rs[i] {
        assert xs[i] in ms;
        PrintedAvoids(xs[i], c);
      }
      JoinAvoids(", ", rs, c);
  }

  /**
   * Dict keys and leaf values never reach the printed annotation: a word with
   * a character that neither a leaf type name nor the printer's fixed pieces
   * hold is never in it.
   */
  lemma WordNotShown(d: PyData, w: string, c: char)
    requires c in w && NotPrinterText(c) && LeavesAvoid(d, c)
    ensures !Contains(TypeToString(Annotation(d)), w)
  {
    AnnotationAvoids(d, c);
    PrintedAvoids(Annotation(d), c);
    if Contains(TypeToString(Annotation(d)), w) {
      ContainsChar(TypeToString(Annotation(d)), w, c);
    }
  }

  /** `m`, from the word `name`, is in none of the printer's fixed pieces */
  lemma LetterMPrinter()
    ensures NotPrinterText('m') && 'm' in "name"
  {
  }

  /** A user record's leaves are strings and integers, whose type names lack `m` */
  lemma UserAvoidsM(name: string, s1: string, s2: string, joined: string)
    ensures LeavesAvoid(User(name, s1, s2, joined), 'm')
  {
    assert 'm' !in "str" && 'm' !in "int";
    var str := Str(name);
    assert LeavesAvoid(str, 'm') && LeavesAvoid(Str(joined), 'm');
    assert LeavesAvoid(Int(s1), 'm') && LeavesAvoid(Int(s2), 'm');
    var scores := List([Int(s1), Int(s2)]);
    assert LeavesAvoid(scores, 'm');
    var meta := Dict([(Str("'joined'"), Str(joined))]);
    assert LeavesAvoid(meta, 'm');
    var es := User(name, s1, s2, joined).entries;
    forall i | 0 <= i < |es| ensures LeavesAvoid(es[i].0, 'm') && LeavesAvoid(es[i].1, 'm') {
      assert es[1].1 == scores && es[2].1 == meta;
    }
  }

  /** The check of `test_deeply_nested_collections` that the field name `name` is not printed */
  lemma UsersDataHidesFieldName()
    ensures !Contains(TypeToString(Annotation(Dict([(Str("'users'"), List([User("'Alice'", "98", "95", "'2023-01-01'"),
                                                                        User("'Bob'", "85", "90", "'2023-02-15'")]))]))), "name")
  {
    var users := [User("'Alice'", "98", "95", "'2023-01-01'"), User("'Bob'", "85", "90", "'2023-02-15'")];
    var top := Dict([(Str("'users'"), List(users))]);
    UserAvoidsM("'Alice'", "98", "95", "'2023-01-01'");
    UserAvoidsM("'Bob'", "85", "90", "'2023-02-15'");
    assert LeavesAvoid(List(users), 'm');
    assert LeavesAvoid(top, 'm');
    LetterMPrinter();
    WordNotShown(top, "name", 'm');
  }
}

/** Drill-down: replacing a dimension by its child level, and what that does to the compiled query. */
module Drill {
  import opened Wrappers
  import opened Sequences
  import opened Vizql

  // ---------- the child level ----------

  ghost predicate HasChild(path: seq<string>, i: nat, field: string) {
    i + 1 < |path| && path[i] == field
  }

  /** `child` follows `field` at level `i` of hierarchy `h`, and it is the first such place. */
  ghost predicate FirstChild(hierarchies: seq<seq<string>>, field: string, h: nat, i: nat, child: string) {
    && h < |hierarchies| && HasChild(hierarchies[h], i, field) && child == hierarchies[h][i + 1]
    && (forall i': nat | i' < i :: !HasChild(hierarchies[h], i', field))
    && (forall h', i': nat | 0 <= h' < h :: !HasChild(hierarchies[h'], i', field))
  }

  /** `child` is the level after the first place where the field has one, None when it has none anywhere. */
  ghost predicate IsChild(hierarchies: seq<seq<string>>, field: string, child: Option<string>) {
    && (child.None? <==> forall h, i: nat | 0 <= h < |hierarchies| :: !HasChild(hierarchies[h], i, field))
    && (child.Some? ==> exists h: nat, i: nat :: FirstChild(hierarchies, field, h, i, child.value))
  }

  /** The level after `field`, searching hierarchies in order and each from its top. A field that ends one hierarchy is
      still looked for in the next. */
  method ChildOf(hierarchies: seq<seq<string>>, field: string) returns (child: Option<string>)
    ensures IsChild(hierarchies, field, child)
  {
    for h := 0 to |hierarchies|
      invariant forall h', i: nat | 0 <= h' < h :: !HasChild(hierarchies[h'], i, field)
    {
      var path := hierarchies[h];
      for i := 0 to |path|
        invariant forall i': nat | i' < i :: !HasChild(path, i', field)
      {
        if path[i] == field && i + 1 < |path| {
          assert FirstChild(hierarchies, field, h, i, path[i + 1]);
          return Some(path[i + 1]);
        }
      }
    }
    return None;
  }

  // ---------- the documented child ----------

  /** `h` is the first hierarchy containing the field. */
  ghost predicate FirstContaining(hierarchies: seq<seq<string>>, field: string, h: nat) {
    && h < |hierarchies| && field in hierarchies[h]
    && forall h' | 0 <= h' < h :: field !in hierarchies[h']
  }

  /** The documented child: the level after the field in the first hierarchy containing it. */
  ghost predicate IsDocumentedChild(hierarchies: seq<seq<string>>, field: string, child: Option<string>) {
    && (forall h: nat | FirstContaining(hierarchies, field, h) :: IsChild([hierarchies[h]], field, child))
    && ((forall h: nat :: !FirstContaining(hierarchies, field, h)) ==> child == None)
  }

  /** The field has a child level in the first hierarchy containing it. */
  ghost predicate ChildInFirst(hierarchies: seq<seq<string>>, field: string) {
    exists h: nat, i: nat :: FirstContaining(hierarchies, field, h) && HasChild(hierarchies[h], i, field)
  }

  /** What the code returns is what the documentation says exactly when the field has a child in the first hierarchy
      containing it, or has none in any. */
  lemma DocumentedIff(hierarchies: seq<seq<string>>, field: string, child: Option<string>)
    requires IsChild(hierarchies, field, child)
    ensures IsDocumentedChild(hierarchies, field, child) <==>
            ChildInFirst(hierarchies, field)
            || forall h, i: nat | 0 <= h < |hierarchies| :: !HasChild(hierarchies[h], i, field)
  {
    if h: nat :| FirstContaining(hierarchies, field, h) {
      assert forall h': nat | FirstContaining(hierarchies, field, h') :: h' == h;
      if i: nat :| HasChild(hierarchies[h], i, field) {
        ChildIsThere(hierarchies, field, child, h, i);
      } else {
        assert forall i': nat, h' | 0 <= h' < |[hierarchies[h]]| :: !HasChild([hierarchies[h]][h'], i', field);
      }
    } else {
      NowhereNoChild(hierarchies, field);
    }
  }

  lemma ChildIsThere(hierarchies: seq<seq<string>>, field: string, child: Option<string>, h: nat, i: nat)
    requires IsChild(hierarchies, field, child) && FirstContaining(hierarchies, field, h)
             && HasChild(hierarchies[h], i, field)
    ensures IsChild([hierarchies[h]], field, child)
  {
    var h0: nat, i0: nat :| FirstChild(hierarchies, field, h0, i0, child.value);
    assert h0 == h;
    assert FirstChild([hierarchies[h]], field, 0, i0, child.value);
    assert HasChild([hierarchies[h]][0], i, field);
  }

  lemma NowhereNoChild(hierarchies: seq<seq<string>>, field: string)
    requires forall h: nat :: !FirstContaining(hierarchies, field, h)
    ensures forall h, i: nat | 0 <= h < |hierarchies| :: !HasChild(hierarchies[h], i, field)
  {
    NotContained(hierarchies, field);
  }

  lemma {:induction false} NotContained(hierarchies: seq<seq<string>>, field: string)
    requires forall h: nat :: !FirstContaining(hierarchies, field, h)
    ensures forall h | 0 <= h < |hierarchies| :: field !in hierarchies[h]
  {
    if hierarchies != [] {
      var n := |hierarchies| - 1;
      var fewer := hierarchies[..n];
      assert forall h: nat | FirstContaining(fewer, field, h) :: FirstContaining(hierarchies, field, h);
      NotContained(fewer, field);
      assert !FirstContaining(hierarchies, field, n);
    }
  }

  /** Where they part: the first hierarchy ends at the field, the second goes on. */
  lemma DocumentedChildDiffers(child: Option<string>)
    requires IsChild([["a", "b"], ["b", "c"]], "b", child)
    ensures child == Some("c") && !IsDocumentedChild([["a", "b"], ["b", "c"]], "b", child)
  {
    var hs := [["a", "b"], ["b", "c"]];
    assert HasChild(hs[1], 0, "b");
    var h: nat, i: nat :| FirstChild(hs, "b", h, i, child.value);
    assert FirstContaining(hs, "b", 0);
    assert forall i': nat :: !HasChild([hs[0]][0], i', "b");
  }

  // ---------- swapping a field ----------

  function Swap(field: string, child: string, r: FieldRef): FieldRef {
    if r.name == field && r.agg == "" then r.(name := child) else r
  }

  function SwapAll(field: string, child: string, refs: seq<FieldRef>): (out: seq<FieldRef>)
    ensures |out| == |refs| && forall i | 0 <= i < |refs| :: out[i] == Swap(field, child, refs[i])
  {
    seq(|refs|, i requires 0 <= i < |refs| => Swap(field, child, refs[i]))
  }

  function SwapTuples(field: string, child: string, t: seq<Tuple>): (out: seq<Tuple>)
    ensures |out| == |t| && forall i | 0 <= i < |t| :: out[i] == Tuple(SwapAll(field, child, t[i].fields), t[i].nested)
  {
    seq(|t|, i requires 0 <= i < |t| => Tuple(SwapAll(field, child, t[i].fields), t[i].nested))
  }

  function DrillShelf(field: string, child: string, s: Shelf): Shelf
    decreases s, 1
  {
    match s
    case Nil => Nil
    case Leaf(ref) => Leaf(Swap(field, child, ref))
    case Node(op, args) => Node(op, DrillEach(field, child, args))
  }

  function DrillEach(field: string, child: string, args: seq<Shelf>): (out: seq<Shelf>)
    ensures |out| == |args|
    ensures forall i | 0 <= i < |args| :: out[i] == DrillShelf(field, child, args[i])
    decreases args, 0
  {
    if args == [] then []
    else DrillEach(field, child, args[..|args| - 1]) + [DrillShelf(field, child, args[|args| - 1])]
  }

  // ---------- the homomorphism ----------

  lemma SwapConcat(field: string, child: string, a: seq<Tuple>, b: seq<Tuple>)
    ensures SwapTuples(field, child, a + b) == SwapTuples(field, child, a) + SwapTuples(field, child, b)
  {
  }

  lemma SwapJoin(field: string, child: string, l: Tuple, right: seq<Tuple>, nest: bool)
    ensures SwapTuples(field, child, JoinEach(l, right, nest))
            == JoinEach(Tuple(SwapAll(field, child, l.fields), l.nested), SwapTuples(field, child, right), nest)
  {
    forall i | 0 <= i < |right|
      ensures SwapAll(field, child, l.fields + right[i].fields)
              == SwapAll(field, child, l.fields) + SwapAll(field, child, right[i].fields)
    {
    }
  }

  lemma {:induction false} SwapProduct(field: string, child: string, left: seq<Tuple>, right: seq<Tuple>, nest: bool)
    ensures SwapTuples(field, child, Product(left, right, nest))
            == Product(SwapTuples(field, child, left), SwapTuples(field, child, right), nest)
  {
    if left != [] {
      var n := |left| - 1;
      SwapProduct(field, child, left[..n], right, nest);
      SwapJoin(field, child, left[n], right, nest);
      SwapConcat(field, child, Product(left[..n], right, nest), JoinEach(left[n], right, nest));
      assert SwapTuples(field, child, left)[..n] == SwapTuples(field, child, left[..n]);
    }
  }

  /** Normalizing a drilled shelf is swapping the field in the normal form. */
  lemma {:induction false} NormalizeDrilled(field: string, child: string, s: Shelf)
    ensures Normalize(DrillShelf(field, child, s)) == SwapTuples(field, child, Normalize(s))
    decreases s, 1
  {
    match s
    case Nil =>
      assert SwapTuples(field, child, Normalize(s)) == [Tuple([], false)];
    case Leaf(ref) =>
      assert SwapAll(field, child, [ref]) == [Swap(field, child, ref)];
    case Node(op, args) =>
      if op == Concat {
        UnionDrilled(field, child, args);
      } else if op == Cross || op == Nest {
        ProductDrilled(field, child, args, op == Nest);
      }
  }

  lemma {:induction false} UnionDrilled(field: string, child: string, args: seq<Shelf>)
    ensures Union(DrillEach(field, child, args)) == SwapTuples(field, child, Union(args))
    decreases args, 0
  {
    if args != [] {
      var n := |args| - 1;
      UnionDrilled(field, child, args[..n]);
      NormalizeDrilled(field, child, args[n]);
      SwapConcat(field, child, Union(args[..n]), Normalize(args[n]));
      assert DrillEach(field, child, args)[..n] == DrillEach(field, child, args[..n]);
    }
  }

  lemma {:induction false} ProductDrilled(field: string, child: string, args: seq<Shelf>, nest: bool)
    ensures ProductAll(DrillEach(field, child, args), nest) == SwapTuples(field, child, ProductAll(args, nest))
    decreases args, 0
  {
    if args == [] {
      assert SwapTuples(field, child, ProductAll(args, nest)) == [Tuple([], false)];
    } else {
      var n := |args| - 1;
      ProductDrilled(field, child, args[..n], nest);
      NormalizeDrilled(field, child, args[n]);
      SwapProduct(field, child, ProductAll(args[..n], nest), Normalize(args[n]), nest);
      assert DrillEach(field, child, args)[..n] == DrillEach(field, child, args[..n]);
    }
  }

  // ---------- drilling a spec ----------

  function SwapSort(field: string, child: string, sort: seq<OrderField>): (out: seq<OrderField>)
    ensures |out| == |sort|
    ensures forall i | 0 <= i < |sort| :: out[i] == if sort[i].field == field then sort[i].(field := child) else sort[i]
  {
    seq(|sort|, i requires 0 <= i < |sort| => if sort[i].field == field then sort[i].(field := child) else sort[i])
  }

  function SwapEncodings(field: string, child: string, es: seq<Option<FieldRef>>): (out: seq<Option<FieldRef>>)
    ensures |out| == |es|
    ensures forall i | 0 <= i < |es| :: out[i] == if es[i].Some? then Some(Swap(field, child, es[i].value)) else None
  {
    seq(|es|, i requires 0 <= i < |es| => if es[i].Some? then Some(Swap(field, child, es[i].value)) else None)
  }

  /** The drilled copy, given the child. */
  function Drilled(s: VizSpec, field: string, child: string): VizSpec {
    s.(rows := DrillShelf(field, child, s.rows),
       columns := DrillShelf(field, child, s.columns),
       detail := SwapAll(field, child, s.detail),
       encodings := SwapEncodings(field, child, s.encodings),
       sort := SwapSort(field, child, s.sort))
  }

  ghost predicate CanDrill(cube: CubeSchema, field: string, child: string, h: nat, i: nat) {
    cube.fields.Some? && child in cube.fields.value && FirstChild(cube.hierarchies, field, h, i, child)
  }

  lemma OneFirstChild(hs: seq<seq<string>>, field: string, h: nat, i: nat, child: string, h': nat, i': nat,
                      child': string)
    requires FirstChild(hs, field, h, i, child) && FirstChild(hs, field, h', i', child')
    ensures child == child'
  {
  }

  method DrillDown(s: VizSpec, cube: CubeSchema, field: string) returns (r: Result<VizSpec, Error>)
    ensures r.Ok? <==> exists child, h: nat, i: nat :: CanDrill(cube, field, child, h, i)
    ensures r.Ok? ==> exists child, h: nat, i: nat ::
              CanDrill(cube, field, child, h, i) && r.value == Drilled(s, field, child)
  {
    if cube.fields.None? {
      return Err(Invalid("cube has no field allow-list"));
    }
    var child := ChildOf(cube.hierarchies, field);
    if child.None? {
      return Err(Invalid("field has no child level to drill into"));
    }
    ghost var h: nat, i: nat :| FirstChild(cube.hierarchies, field, h, i, child.value);
    if child.value !in cube.fields.value {
      forall other, h': nat, i': nat | FirstChild(cube.hierarchies, field, h', i', other) ensures other == child.value {
        OneFirstChild(cube.hierarchies, field, h, i, child.value, h', i', other);
      }
      return Err(Invalid("drill child is not declared by the cube"));
    }
    assert CanDrill(cube, field, child.value, h, i);
    r := Ok(Drilled(s, field, child.value));
  }

  // ---------- the drilled query ----------

  lemma {:induction false} TupleFieldsSwapped(field: string, child: string, t: seq<Tuple>)
    ensures TupleFields(SwapTuples(field, child, t)) == SwapAll(field, child, TupleFields(t))
  {
    if t != [] {
      var n := |t| - 1;
      TupleFieldsSwapped(field, child, t[..n]);
      assert SwapTuples(field, child, t)[..n] == SwapTuples(field, child, t[..n]);
    }
  }

  lemma {:induction false} EncodedSwapped(field: string, child: string, es: seq<Option<FieldRef>>)
    ensures Encoded(SwapEncodings(field, child, es)) == SwapAll(field, child, Encoded(es))
  {
    if es != [] {
      var n := |es| - 1;
      EncodedSwapped(field, child, es[..n]);
      assert SwapEncodings(field, child, es)[..n] == SwapEncodings(field, child, es[..n]);
    }
  }

  /** The drilled query visits the same references, swapped. */
  lemma RefsDrilled(s: VizSpec, field: string, child: string)
    ensures Refs(Drilled(s, field, child)) == SwapAll(field, child, Refs(s))
  {
    hide Normalize;
    hide TupleFields;
    hide Encoded;
    hide DrillShelf;
    hide SwapTuples;
    hide Swap;
    NormalizeDrilled(field, child, s.rows);
    NormalizeDrilled(field, child, s.columns);
    TupleFieldsSwapped(field, child, Normalize(s.rows));
    TupleFieldsSwapped(field, child, Normalize(s.columns));
    EncodedSwapped(field, child, s.encodings);
  }

  function Rename(field: string, child: string, n: string): string {
    if n == field then child else n
  }

  function RenameAll(field: string, child: string, ns: seq<string>): (out: seq<string>)
    ensures |out| == |ns| && forall i | 0 <= i < |ns| :: out[i] == Rename(field, child, ns[i])
  {
    seq(|ns|, i requires 0 <= i < |ns| => Rename(field, child, ns[i]))
  }

  lemma {:induction false} DimsSwapped(field: string, child: string, refs: seq<FieldRef>)
    ensures DimNames(SwapAll(field, child, refs)) == RenameAll(field, child, DimNames(refs))
    ensures MeasureRefs(SwapAll(field, child, refs)) == MeasureRefs(refs)
  {
    if refs != [] {
      var n := |refs| - 1;
      DimsSwapped(field, child, refs[..n]);
      assert SwapAll(field, child, refs)[..n] == SwapAll(field, child, refs[..n]);
    }
  }

  lemma KeysRenamed(field: string, child: string, a: seq<string>, b: seq<string>)
    requires Keys(Name, a) == Keys(Name, b)
    ensures Keys(Name, RenameAll(field, child, a)) == Keys(Name, RenameAll(field, child, b))
  {
    KeysRenamedOneWay(field, child, a, b);
    KeysRenamedOneWay(field, child, b, a);
  }

  lemma KeysRenamedOneWay(field: string, child: string, a: seq<string>, b: seq<string>)
    requires Keys(Name, a) == Keys(Name, b)
    ensures Keys(Name, RenameAll(field, child, a)) <= Keys(Name, RenameAll(field, child, b))
  {
    forall k | k in Keys(Name, RenameAll(field, child, a)) ensures k in Keys(Name, RenameAll(field, child, b)) {
      var i :| 0 <= i < |a| && Name(RenameAll(field, child, a)[i]) == k;
      assert Name(a[i]) in Keys(Name, a);
      var j :| 0 <= j < |b| && Name(b[j]) == a[i];
      assert Name(RenameAll(field, child, b)[j]) == k;
    }
  }

  /** Renaming and then dropping repeats is the same whether repeats were dropped before. */
  lemma {:induction false} DistinctRenamed(field: string, child: string, ns: seq<string>)
    ensures DistinctBy(Name, RenameAll(field, child, DistinctBy(Name, ns)))
            == DistinctBy(Name, RenameAll(field, child, ns))
  {
    if ns != [] {
      var p, x := ns[..|ns| - 1], ns[|ns| - 1];
      assert ns == p + [x];
      DistinctRenamed(field, child, p);
      hide DistinctBy;
      hide Keys;
      DistinctStep(Name, p, x);
      DistinctKeys(Name, p);
      KeysRenamed(field, child, DistinctBy(Name, p), p);
      RenameStep(field, child, p, x);
      RenameStep(field, child, DistinctBy(Name, p), x);
    }
  }

  lemma RenameStep(field: string, child: string, p: seq<string>, x: string)
    ensures var q, y := RenameAll(field, child, p), Rename(field, child, x);
            && RenameAll(field, child, p + [x]) == q + [y]
            && DistinctBy(Name, q + [y])
               == (if y in Keys(Name, q) then DistinctBy(Name, q) else DistinctBy(Name, q) + [y])
            && (x in Keys(Name, p) ==> y in Keys(Name, q))
  {
    var q, y := RenameAll(field, child, p), Rename(field, child, x);
    DistinctStep(Name, q, y);
    if x in Keys(Name, p) {
      var i :| 0 <= i < |p| && Name(p[i]) == x;
      assert Name(q[i]) == y;
    }
  }

  /** The drilled query groups by the old list, renamed and deduplicated, and computes the same measures. */
  lemma QueryDrilled(s: VizSpec, field: string, child: string)
    ensures var refs, drilled := Refs(s), Refs(Drilled(s, field, child));
            && GroupBy(drilled) == DistinctBy(Name, RenameAll(field, child, GroupBy(refs)))
            && Measures(drilled) == Measures(refs) && MeasureKeys(drilled) == MeasureKeys(refs)
            && (Answerable(drilled) <==> Answerable(refs))
  {
    var refs := Refs(s);
    RefsDrilled(s, field, child);
    DimsSwapped(field, child, refs);
    DistinctRenamed(field, child, DimNames(refs));
    var drilled := Refs(Drilled(s, field, child));
    assert forall i | 0 <= i < |refs| :: drilled[i].agg == refs[i].agg;
  }

  lemma GroupByDrilled(s: VizSpec, field: string, child: string, n: string)
    ensures var refs, drilled := Refs(s), Refs(Drilled(s, field, child));
            n in GroupBy(drilled) <==> exists g :: g in GroupBy(refs) && Rename(field, child, g) == n
  {
    hide GroupBy;
    hide Refs;
    hide Drilled;
    QueryDrilled(s, field, child);
    RenamedHave(field, child, GroupBy(Refs(s)), n);
  }

  lemma RenamedHave(field: string, child: string, g: seq<string>, n: string)
    ensures n in DistinctBy(Name, RenameAll(field, child, g)) <==> exists x :: x in g && Rename(field, child, x) == n
  {
    hide DistinctBy;
    var renamed := RenameAll(field, child, g);
    DistinctKeys(Name, renamed);
    var d := DistinctBy(Name, renamed);
    if n in d {
      assert n in renamed;
      var i :| 0 <= i < |renamed| && renamed[i] == n;
      assert g[i] in g;
    }
    if x :| x in g && Rename(field, child, x) == n {
      var i :| 0 <= i < |g| && g[i] == x;
      assert Name(renamed[i]) in Keys(Name, renamed);
      var j :| 0 <= j < |d| && Name(d[j]) == n;
      assert d[j] == n;
    }
  }

  /** A spec that compiles still compiles after drilling exactly when no sort key is caught between two meanings: a
      sort by `field` must be by the dimension (which is renamed with it), unless the child is itself grouped by or
      computed. */
  lemma DrilledCompiles(s: VizSpec, field: string, child: string)
    requires AggregateQuery(s).Ok?
    ensures AggregateQuery(Drilled(s, field, child)).Ok? <==>
            ((forall i | 0 <= i < |s.sort| :: s.sort[i].field != field)
             || field in GroupBy(Refs(s)) || child in GroupBy(Refs(s)) || child in MeasureKeys(Refs(s)))
  {
    var refs, t := Refs(s), Drilled(s, field, child);
    QueryDrilled(s, field, child);
    forall i | 0 <= i < |s.sort| && s.sort[i].field != field
      ensures t.sort[i].field in GroupBy(Refs(t)) || t.sort[i].field in MeasureKeys(Refs(t))
    {
      var n := s.sort[i].field;
      GroupByDrilled(s, field, child, n);
      assert Rename(field, child, n) == n;
    }
    GroupByDrilled(s, field, child, child);
    assert Rename(field, child, field) == child;
    if i :| 0 <= i < |s.sort| && s.sort[i].field == field {
      assert t.sort[i].field == child;
    }
  }

  /** The spec with one measure on its rows, sorted by that measure's key. */
  function SortedByMeasure(): VizSpec {
    VizSpec(Leaf(FieldRef("x", "sum")), Nil, [], [], "cube", "", MarkAuto, [OrderField("sum(x)", false)], None, None)
  }

  lemma OneMeasure()
    ensures var refs := Refs(SortedByMeasure());
            GroupBy(refs) == [] && MeasureKeys(refs) == {"sum(x)"} && Answerable(refs)
  {
    var s, r := SortedByMeasure(), FieldRef("x", "sum");
    assert Normalize(s.rows)[..0] == [] && Normalize(s.columns)[..0] == [];
    assert Refs(s) == [] + [r];
    assert r.Key() == "sum(x)";
    hide Refs;
    NoRefs();
    AddRef([], r);
  }

  /** Sorted by a measure whose key is spelled like the drilled field, it compiles before and not after. */
  lemma DrilledSortIsLost()
    ensures AggregateQuery(SortedByMeasure()).Ok? && !AggregateQuery(Drilled(SortedByMeasure(), "sum(x)", "c")).Ok?
  {
    hide Refs;
    hide GroupBy;
    hide MeasureKeys;
    hide AggregateQuery;
    hide Drilled;
    var s := SortedByMeasure();
    OneMeasure();
    assert |"c"| != |"sum(x)"|;
    SortIsLost(s, "sum(x)", "c");
  }

  lemma SortIsLost(s: VizSpec, field: string, child: string)
    requires Answerable(Refs(s)) && s.sort == [OrderField(field, false)] && field in MeasureKeys(Refs(s))
    requires field !in GroupBy(Refs(s)) && child !in GroupBy(Refs(s)) && child !in MeasureKeys(Refs(s))
    ensures AggregateQuery(s).Ok? && !AggregateQuery(Drilled(s, field, child)).Ok?
  {
    hide Refs;
    hide GroupBy;
    hide MeasureKeys;
    assert AggregateQuery(s).Ok?;
    assert s.sort[0].field == field;
    hide AggregateQuery;
    DrilledCompiles(s, field, child);
  }

  // ---------- validity after drilling ----------

  function SwapSet(field: string, child: string, refs: set<FieldRef>): set<FieldRef> {
    set r | r in refs :: Swap(field, child, r)
  }

  lemma SwapSetUnion(field: string, child: string, a: set<FieldRef>, b: set<FieldRef>)
    ensures SwapSet(field, child, a + b) == SwapSet(field, child, a) + SwapSet(field, child, b)
  {
  }

  lemma {:induction false} LeavesDrilled(field: string, child: string, s: Shelf)
    ensures Leaves(DrillShelf(field, child, s)) == SwapSet(field, child, Leaves(s))
    decreases s, 1
  {
    match s
    case Nil =>
    case Leaf(ref) =>
    case Node(op, args) => LeavesEachDrilled(field, child, args);
  }

  lemma {:induction false} LeavesEachDrilled(field: string, child: string, args: seq<Shelf>)
    ensures LeavesOf(DrillEach(field, child, args)) == SwapSet(field, child, LeavesOf(args))
    decreases args, 0
  {
    if args != [] {
      var n := |args| - 1;
      LeavesEachDrilled(field, child, args[..n]);
      LeavesDrilled(field, child, args[n]);
      assert DrillEach(field, child, args)[..n] == DrillEach(field, child, args[..n]);
      SwapSetUnion(field, child, LeavesOf(args[..n]), Leaves(args[n]));
    }
  }

  lemma SeqSwapped(field: string, child: string, refs: seq<FieldRef>)
    ensures SeqRefs(SwapAll(field, child, refs)) == SwapSet(field, child, SeqRefs(refs))
  {
    var out := SwapAll(field, child, refs);
    forall r ensures r in SeqRefs(out) <==> r in SwapSet(field, child, SeqRefs(refs)) {
      if r in SeqRefs(out) {
        var i :| 0 <= i < |out| && out[i] == r;
        assert refs[i] in SeqRefs(refs);
      }
      if r in SwapSet(field, child, SeqRefs(refs)) {
        var x :| x in SeqRefs(refs) && Swap(field, child, x) == r;
        var i :| 0 <= i < |refs| && refs[i] == x;
        assert out[i] == r;
      }
    }
  }

  /** Drilling places the swapped fields and no others. */
  lemma PlacedDrilled(s: VizSpec, field: string, child: string)
    ensures Placed(Drilled(s, field, child)) == SwapSet(field, child, Placed(s))
  {
    hide SwapSet;
    hide SeqRefs;
    LeavesDrilled(field, child, s.rows);
    LeavesDrilled(field, child, s.columns);
    SeqSwapped(field, child, s.detail);
    EncodedSwapped(field, child, s.encodings);
    SeqSwapped(field, child, Encoded(s.encodings));
    SwapSetUnion(field, child, Leaves(s.rows), Leaves(s.columns));
    SwapSetUnion(field, child, Leaves(s.rows) + Leaves(s.columns), SeqRefs(s.detail));
    SwapSetUnion(field, child, Leaves(s.rows) + Leaves(s.columns) + SeqRefs(s.detail), SeqRefs(Encoded(s.encodings)));
  }

  /** The child may stand where the field stood as a dimension. */
  predicate ChildFits(m: FieldMap, field: string, child: string, placed: set<FieldRef>)
    requires child in m
  {
    FieldRef(field, "") in placed ==> !m[child].role.Measure?
  }

  lemma RefSwapped(m: FieldMap, field: string, child: string, r: FieldRef)
    requires child in m && RefOk(m, r)
    ensures RefOk(m, Swap(field, child, r)) <==> (r == FieldRef(field, "") ==> !m[child].role.Measure?)
  {
  }

  lemma {:induction false} ShelfDrilled(m: FieldMap, field: string, child: string, s: Shelf, depth: nat)
    requires child in m && ShelfOk(m, s, depth)
    ensures ShelfOk(m, DrillShelf(field, child, s), depth) <==> ChildFits(m, field, child, Leaves(s))
    decreases s
  {
    match s
    case Nil =>
    case Leaf(ref) => RefSwapped(m, field, child, ref);
    case Node(op, args) =>
      forall i | 0 <= i < |args|
        ensures ShelfOk(m, DrillShelf(field, child, args[i]), depth + 1) <==>
                  ChildFits(m, field, child, Leaves(args[i]))
      {
        ShelfDrilled(m, field, child, args[i], depth + 1);
      }
      LeafOfSome(args, FieldRef(field, ""));
      var out := DrillEach(field, child, args);
      assert forall i | 0 <= i < |args| :: !out[i].Nil?;
  }

  lemma {:induction false} LeafOfSome(args: seq<Shelf>, r: FieldRef)
    ensures r in LeavesOf(args) <==> exists i :: 0 <= i < |args| && r in Leaves(args[i])
  {
    if args != [] {
      var n := |args| - 1;
      LeafOfSome(args[..n], r);
      if i :| 0 <= i < |args| && r in Leaves(args[i]) {
        assert i < n ==> args[..n][i] == args[i];
      }
    }
  }

  lemma FieldsDrilled(m: FieldMap, s: VizSpec, field: string, child: string)
    requires child in m && FieldsOk(m, s)
    ensures FieldsOk(m, Drilled(s, field, child)) <==> ChildFits(m, field, child, Placed(s))
  {
    hide ShelfOk;
    ShelfDrilled(m, field, child, s.rows, 1);
    ShelfDrilled(m, field, child, s.columns, 1);
    EncodedSwapped(field, child, s.encodings);
    DetailDrilled(m, field, child, s.detail);
    EncodedDrilled(m, field, child, Encoded(s.encodings));
  }

  lemma DetailDrilled(m: FieldMap, field: string, child: string, refs: seq<FieldRef>)
    requires child in m && forall i | 0 <= i < |refs| :: DetailOk(m, refs[i])
    ensures (forall i | 0 <= i < |refs| :: DetailOk(m, SwapAll(field, child, refs)[i]))
            <==> ChildFits(m, field, child, SeqRefs(refs))
  {
    if i :| 0 <= i < |refs| && !DetailOk(m, SwapAll(field, child, refs)[i]) {
      assert refs[i] == FieldRef(field, "");
    }
    if FieldRef(field, "") in refs {
      var i :| 0 <= i < |refs| && refs[i] == FieldRef(field, "");
      assert SwapAll(field, child, refs)[i] == FieldRef(child, "");
    }
  }

  lemma EncodedDrilled(m: FieldMap, field: string, child: string, refs: seq<FieldRef>)
    requires child in m && forall i | 0 <= i < |refs| :: RefOk(m, refs[i])
    ensures (forall i | 0 <= i < |refs| :: RefOk(m, SwapAll(field, child, refs)[i]))
            <==> ChildFits(m, field, child, SeqRefs(refs))
  {
    if i :| 0 <= i < |refs| && !RefOk(m, SwapAll(field, child, refs)[i]) {
      assert refs[i] == FieldRef(field, "");
    }
    if FieldRef(field, "") in refs {
      var i :| 0 <= i < |refs| && refs[i] == FieldRef(field, "");
      assert SwapAll(field, child, refs)[i] == FieldRef(child, "");
    }
  }

  /** The renamed sort keys are still keys of placed fields. */
  lemma SortsDrilled(s: VizSpec, field: string, child: string)
    requires forall i | 0 <= i < |s.sort| :: s.sort[i].field in KeysOf(Placed(s))
    ensures (forall i | 0 <= i < |s.sort| ::
               SwapSort(field, child, s.sort)[i].field in KeysOf(SwapSet(field, child, Placed(s))))
            <==> ((forall i | 0 <= i < |s.sort| :: s.sort[i].field != field)
                  || FieldRef(field, "") in Placed(s) || child in KeysOf(Placed(s)))
  {
    hide Placed;
    var placed := Placed(s);
    var swapped := SwapSet(field, child, placed);
    forall k | k in KeysOf(placed) && k != field ensures k in KeysOf(swapped) {
      var r :| r in placed && r.Key() == k;
      assert Swap(field, child, r) == r && r in swapped;
    }
    assert child in KeysOf(swapped) <==> FieldRef(field, "") in placed || child in KeysOf(placed) by {
      ChildKey(placed, field, child);
    }
    if i :| 0 <= i < |s.sort| && s.sort[i].field == field {
      assert SwapSort(field, child, s.sort)[i].field == child;
    }
  }

  lemma ChildKey(placed: set<FieldRef>, field: string, child: string)
    ensures child in KeysOf(SwapSet(field, child, placed)) <==> FieldRef(field, "") in placed || child in KeysOf(placed)
  {
    var swapped := SwapSet(field, child, placed);
    if FieldRef(field, "") in placed {
      assert Swap(field, child, FieldRef(field, "")) in swapped;
      assert FieldRef(child, "").Key() == child;
    } else if r :| r in placed && r.Key() == child {
      assert Swap(field, child, r) == r && r in swapped;
    }
    if x :| x in swapped && x.Key() == child {
      var r :| r in placed && Swap(field, child, r) == x;
      assert r != FieldRef(field, "") ==> r == x;
    }
  }

  /** A valid spec is valid after drilling exactly when the child is no measure where the field was placed, and a
      sort by the field's name is by the dimension or finds the child placed. */
  lemma DrilledStaysValid(m: FieldMap, s: VizSpec, field: string, child: string)
    requires ValidSpec(Some(m), s) && child in m
    ensures ValidSpec(Some(m), Drilled(s, field, child)) <==>
            && ChildFits(m, field, child, Placed(s))
            && ((forall i | 0 <= i < |s.sort| :: s.sort[i].field != field)
                || FieldRef(field, "") in Placed(s) || child in KeysOf(Placed(s)))
  {
    hide Placed;
    hide FieldsOk;
    hide KeysOf;
    FieldsDrilled(m, s, field, child);
    PlacedDrilled(s, field, child);
    SortsDrilled(s, field, child);
  }
}

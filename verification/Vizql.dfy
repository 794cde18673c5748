/** The visual algebra: shelves, their normal form, validation and compilation. */
module Vizql {
  import opened Wrappers
  import opened Sequences

  const MAX_SHELF_DEPTH := 8
  const COUNT_DISTINCT := "count_distinct"

  /** A field, aggregated when `agg` is not empty. */
  datatype FieldRef = FieldRef(name: string, agg: string) {
    function Key(): string {
      if agg == "" then name else agg + "(" + name + ")"
    }
    predicate IsDimension() { agg == "" }
  }

  datatype AlgebraOp = Cross | Concat | Nest | OtherOp(name: string)

  /** A shelf expression; `Nil` is the empty shelf. */
  datatype Shelf = Nil | Leaf(ref: FieldRef) | Node(op: AlgebraOp, args: seq<Shelf>)

  datatype Tuple = Tuple(fields: seq<FieldRef>, nested: bool)

  // ---------- normal form ----------

  function Normalize(s: Shelf): seq<Tuple>
    decreases s, 1
  {
    match s
    case Nil => [Tuple([], false)]
    case Leaf(ref) => [Tuple([ref], false)]
    case Node(Concat, args) => Union(args)
    case Node(Cross, args) => ProductAll(args, false)
    case Node(Nest, args) => ProductAll(args, true)
    case Node(OtherOp(_), _) => []
  }

  function Union(args: seq<Shelf>): seq<Tuple>
    decreases args, 0
  {
    if args == [] then [] else Union(args[..|args| - 1]) + Normalize(args[|args| - 1])
  }

  function ProductAll(args: seq<Shelf>, nest: bool): seq<Tuple>
    decreases args, 0
  {
    if args == [] then [Tuple([], false)]
    else Product(ProductAll(args[..|args| - 1], nest), Normalize(args[|args| - 1]), nest)
  }

  function Join(l: Tuple, r: Tuple, nest: bool): Tuple {
    Tuple(l.fields + r.fields, nest || l.nested || r.nested)
  }

  function JoinEach(l: Tuple, right: seq<Tuple>, nest: bool): (out: seq<Tuple>)
    ensures |out| == |right| && forall i | 0 <= i < |right| :: out[i] == Join(l, right[i], nest)
  {
    seq(|right|, i requires 0 <= i < |right| => Join(l, right[i], nest))
  }

  /** Every left tuple extended by every right tuple, left outer. */
  function Product(left: seq<Tuple>, right: seq<Tuple>, nest: bool): seq<Tuple> {
    if left == [] then [] else Product(left[..|left| - 1], right, nest) + JoinEach(left[|left| - 1], right, nest)
  }

  method ProductLoop(left: seq<Tuple>, right: seq<Tuple>, nest: bool) returns (out: seq<Tuple>)
    ensures out == Product(left, right, nest)
  {
    out := [];
    for i := 0 to |left|
      invariant out == Product(left[..i], right, nest)
    {
      ghost var before := out;
      for j := 0 to |right|
        invariant out == before + JoinEach(left[i], right, nest)[..j]
      {
        out := out + [Tuple(left[i].fields + right[j].fields, nest || left[i].nested || right[j].nested)];
      }
      assert left[..i + 1][..i] == left[..i];
      assert JoinEach(left[i], right, nest)[..|right|] == JoinEach(left[i], right, nest);
    }
    assert left[..|left|] == left;
  }

  /** The normal form, computed with the loops of the source. */
  method NormalizeLoop(s: Shelf) returns (out: seq<Tuple>)
    ensures out == Normalize(s)
    decreases s
  {
    match s
    case Nil => return [Tuple([], false)];
    case Leaf(ref) => return [Tuple([ref], false)];
    case Node(op, args) =>
      if op == Concat {
        out := [];
        for i := 0 to |args|
          invariant out == Union(args[..i])
        {
          var more := NormalizeLoop(args[i]);
          assert args[..i + 1][..i] == args[..i];
          out := out + more;
        }
        assert args[..|args|] == args;
      } else if op == Cross || op == Nest {
        out := [Tuple([], false)];
        for i := 0 to |args|
          invariant out == ProductAll(args[..i], op == Nest)
        {
          var more := NormalizeLoop(args[i]);
          assert args[..i + 1][..i] == args[..i];
          out := ProductLoop(out, more, op == Nest);
        }
        assert args[..|args|] == args;
      } else {
        return [];
      }
  }

  // ---------- leaves ----------

  function Leaves(s: Shelf): set<FieldRef>
    decreases s, 1
  {
    match s
    case Nil => {}
    case Leaf(ref) => {ref}
    case Node(_, args) => LeavesOf(args)
  }

  function LeavesOf(args: seq<Shelf>): set<FieldRef>
    decreases args, 0
  {
    if args == [] then {} else LeavesOf(args[..|args| - 1]) + Leaves(args[|args| - 1])
  }

  function TupleRefs(t: seq<Tuple>): set<FieldRef> {
    set i, j | 0 <= i < |t| && 0 <= j < |t[i].fields| :: t[i].fields[j]
  }

  /** Operators known, with operands, none of them missing. */
  predicate WellFormed(s: Shelf) {
    match s
    case Nil => false
    case Leaf(_) => true
    case Node(op, args) => !op.OtherOp? && args != [] && forall i | 0 <= i < |args| :: WellFormed(args[i])
  }

  lemma RefsConcat(a: seq<Tuple>, b: seq<Tuple>)
    ensures TupleRefs(a + b) == TupleRefs(a) + TupleRefs(b)
  {
    forall r ensures r in TupleRefs(a + b) <==> r in TupleRefs(a) + TupleRefs(b) {
      if r in TupleRefs(a) {
        var i, j :| 0 <= i < |a| && 0 <= j < |a[i].fields| && a[i].fields[j] == r;
        assert (a + b)[i].fields[j] == r;
      }
      if r in TupleRefs(b) {
        var i, j :| 0 <= i < |b| && 0 <= j < |b[i].fields| && b[i].fields[j] == r;
        assert (a + b)[|a| + i].fields[j] == r;
      }
    }
  }

  lemma RefsOfJoin(l: Tuple, right: seq<Tuple>, nest: bool)
    requires right != []
    ensures TupleRefs(JoinEach(l, right, nest)) == TupleRefs([l]) + TupleRefs(right)
  {
    var out := JoinEach(l, right, nest);
    forall r ensures r in TupleRefs(out) <==> r in TupleRefs([l]) + TupleRefs(right) {
      if r in TupleRefs(out) {
        var i, j :| 0 <= i < |out| && 0 <= j < |out[i].fields| && out[i].fields[j] == r;
        if j < |l.fields| {
          assert [l][0].fields[j] == r;
        } else {
          assert right[i].fields[j - |l.fields|] == r;
        }
      }
      if r in TupleRefs([l]) {
        var i, j :| 0 <= i < |[l]| && 0 <= j < |[l][i].fields| && [l][i].fields[j] == r;
        assert out[0].fields[j] == r;
      }
      if r in TupleRefs(right) {
        var i, j :| 0 <= i < |right| && 0 <= j < |right[i].fields| && right[i].fields[j] == r;
        assert out[i].fields[|l.fields| + j] == r;
      }
    }
  }

  /** A product of non-empty tables has every field of both and loses none. */
  lemma {:induction false} ProductRefs(left: seq<Tuple>, right: seq<Tuple>, nest: bool)
    requires right != []
    ensures left != [] ==> Product(left, right, nest) != []
    ensures TupleRefs(Product(left, right, nest)) == if left == [] then {} else TupleRefs(left) + TupleRefs(right)
  {
    if left != [] {
      var n := |left| - 1;
      var before, last := Product(left[..n], right, nest), JoinEach(left[n], right, nest);
      assert Product(left, right, nest) == before + last && left == left[..n] + [left[n]];
      assert TupleRefs([]) == {};
      hide TupleRefs;
      hide Product;
      ProductRefs(left[..n], right, nest);
      RefsOfJoin(left[n], right, nest);
      RefsConcat(before, last);
      RefsConcat(left[..n], [left[n]]);
      assert |before + last| == |before| + |last|;
      if n == 0 {
        assert left[..n] == [];
      }
    } else {
      assert Product(left, right, nest) == [];
    }
  }

  /** The normal form of a well-formed shelf is not empty and has exactly the shelf's leaves. */
  lemma {:induction false} NormalizeKeepsLeaves(s: Shelf)
    requires WellFormed(s)
    ensures Normalize(s) != [] && TupleRefs(Normalize(s)) == Leaves(s)
    decreases s, 1
  {
    match s
    case Leaf(ref) => assert Normalize(s)[0].fields[0] == ref;
    case Node(op, args) =>
      if op == Concat {
        UnionKeepsLeaves(args);
      } else {
        ProductKeepsLeaves(args, op == Nest);
      }
  }

  lemma {:induction false} UnionKeepsLeaves(args: seq<Shelf>)
    requires forall i | 0 <= i < |args| :: WellFormed(args[i])
    ensures TupleRefs(Union(args)) == LeavesOf(args) && (args != [] ==> Union(args) != [])
    decreases args, 0
  {
    if args != [] {
      var n := |args| - 1;
      UnionKeepsLeaves(args[..n]);
      NormalizeKeepsLeaves(args[n]);
      RefsConcat(Union(args[..n]), Normalize(args[n]));
    }
  }

  lemma {:induction false} ProductKeepsLeaves(args: seq<Shelf>, nest: bool)
    requires forall i | 0 <= i < |args| :: WellFormed(args[i])
    ensures TupleRefs(ProductAll(args, nest)) == LeavesOf(args) && ProductAll(args, nest) != []
    decreases args, 0
  {
    if args != [] {
      var n := |args| - 1;
      ProductKeepsLeaves(args[..n], nest);
      NormalizeKeepsLeaves(args[n]);
      ProductRefs(ProductAll(args[..n], nest), Normalize(args[n]), nest);
    }
  }

  // ---------- the allow-list and validation ----------

  datatype Role = Dimension | Measure | TimeRole
  datatype Field = Field(role: Role, aggregates: seq<string>)

  type FieldMap = map<string, Field>

  predicate RefOk(m: FieldMap, r: FieldRef) {
    && r.name in m
    && if m[r.name].role.Measure? then r.agg != "" && r.agg in m[r.name].aggregates else r.agg == ""
  }

  predicate DetailOk(m: FieldMap, r: FieldRef) {
    r.name in m && !m[r.name].role.Measure? && r.agg == ""
  }

  /** No deeper than allowed, well formed, and every leaf allow-listed. */
  predicate ShelfOk(m: FieldMap, s: Shelf, depth: nat) {
    s.Nil? ||
    (depth <= MAX_SHELF_DEPTH &&
     match s
     case Leaf(ref) => RefOk(m, ref)
     case Node(op, args) =>
       !op.OtherOp? && args != [] && forall i | 0 <= i < |args| :: !args[i].Nil? && ShelfOk(m, args[i], depth + 1))
  }

  function KeysOf(refs: set<FieldRef>): set<string> {
    set r | r in refs :: r.Key()
  }

  lemma KeysOfUnion(a: set<FieldRef>, b: set<FieldRef>)
    ensures KeysOf(a + b) == KeysOf(a) + KeysOf(b)
  {
  }

  /** The recursive walk: it collects the keys of the leaves it passes in a shared set. */
  method ValidateShelf(m: FieldMap, s: Shelf, depth: nat, keys: set<string>) returns (ok: bool, keys': set<string>)
    ensures ok <==> ShelfOk(m, s, depth)
    ensures ok ==> keys' == keys + KeysOf(Leaves(s))
    decreases s
  {
    keys' := keys;
    if s.Nil? {
      return true, keys';
    }
    if depth > MAX_SHELF_DEPTH {
      return false, keys';
    }
    if s.Leaf? {
      keys' := keys' + {s.ref.Key()};
      return RefOk(m, s.ref), keys';
    }
    if s.op.OtherOp? || s.args == [] {
      return false, keys';
    }
    for i := 0 to |s.args|
      invariant forall j | 0 <= j < i :: !s.args[j].Nil? && ShelfOk(m, s.args[j], depth + 1)
      invariant keys' == keys + KeysOf(LeavesOf(s.args[..i]))
    {
      if s.args[i].Nil? {
        return false, keys';
      }
      var fine;
      fine, keys' := ValidateShelf(m, s.args[i], depth + 1, keys');
      if !fine {
        return false, keys';
      }
      assert s.args[..i + 1][..i] == s.args[..i];
      KeysOfUnion(LeavesOf(s.args[..i]), Leaves(s.args[i]));
    }
    assert s.args[..|s.args|] == s.args;
    ok := true;
  }

  lemma {:induction false} OkIsWellFormed(m: FieldMap, s: Shelf, depth: nat)
    requires ShelfOk(m, s, depth) && !s.Nil?
    ensures WellFormed(s)
    decreases s
  {
    if s.Node? {
      forall i | 0 <= i < |s.args| ensures WellFormed(s.args[i]) {
        OkIsWellFormed(m, s.args[i], depth + 1);
      }
    }
  }

  datatype OrderField = OrderField(field: string, desc: bool)

  datatype Mark = MarkAuto | MarkText | MarkBar | MarkLine | MarkPoint | OtherMark(name: string)

  /** `grain` is "" for none; `from` and `to` are None when unset. The filter is carried as it is. */
  datatype VizSpec = VizSpec(
    rows: Shelf, columns: Shelf, detail: seq<FieldRef>, encodings: seq<Option<FieldRef>>, cube: string, grain: string,
    mark: Mark, sort: seq<OrderField>, from: Option<int>, to: Option<int>)

  function Encoded(encodings: seq<Option<FieldRef>>): seq<FieldRef> {
    if encodings == [] then []
    else
      var rest := Encoded(encodings[..|encodings| - 1]);
      match encodings[|encodings| - 1]
      case Some(r) => rest + [r]
      case None => rest
  }

  const GRAINS := {"minute", "hour", "day", "month"}

  predicate ScalarsOk(s: VizSpec) {
    && s.cube != "" && (s.grain == "" || s.grain in GRAINS) && !s.mark.OtherMark?
    && (s.from.Some? && s.to.Some? ==> s.from.value < s.to.value)
  }

  function SeqRefs(refs: seq<FieldRef>): set<FieldRef> {
    set r | r in refs
  }

  /** Every field the spec places, wherever it is placed. */
  function Placed(s: VizSpec): set<FieldRef> {
    Leaves(s.rows) + Leaves(s.columns) + SeqRefs(s.detail) + SeqRefs(Encoded(s.encodings))
  }

  predicate FieldsOk(m: FieldMap, s: VizSpec) {
    && ShelfOk(m, s.rows, 1) && ShelfOk(m, s.columns, 1)
    && (forall i | 0 <= i < |s.detail| :: DetailOk(m, s.detail[i]))
    && (forall i | 0 <= i < |Encoded(s.encodings)| :: RefOk(m, Encoded(s.encodings)[i]))
  }

  /** A spec that passes validation, apart from its filter. */
  predicate ValidSpec(m: Option<FieldMap>, s: VizSpec) {
    && ScalarsOk(s) && m.Some? && FieldsOk(m.value, s)
    && forall i | 0 <= i < |s.sort| :: s.sort[i].field in KeysOf(Placed(s))
  }

  method ValidateFields(m: FieldMap, s: VizSpec) returns (ok: bool, keys: set<string>)
    ensures ok <==> FieldsOk(m, s)
    ensures ok ==> keys == KeysOf(Placed(s))
  {
    hide ShelfOk;
    hide KeysOf;
    ok, keys := ValidateShelf(m, s.rows, 1, KeysOf({}));
    if !ok { return; }
    ok, keys := ValidateShelf(m, s.columns, 1, keys);
    if !ok { return; }
    ok, keys := ValidateDetail(m, s.detail, keys);
    if !ok { return; }
    ok, keys := ValidateEncoded(m, Encoded(s.encodings), keys);
    if ok {
      KeysOfUnion({}, Leaves(s.rows));
      KeysOfUnion(Leaves(s.rows), Leaves(s.columns));
      KeysOfUnion(Leaves(s.rows) + Leaves(s.columns), SeqRefs(s.detail));
      KeysOfUnion(Leaves(s.rows) + Leaves(s.columns) + SeqRefs(s.detail), SeqRefs(Encoded(s.encodings)));
      assert {} + Leaves(s.rows) == Leaves(s.rows);
    }
  }

  method ValidateDetail(m: FieldMap, detail: seq<FieldRef>, keys: set<string>) returns (ok: bool, keys': set<string>)
    ensures ok <==> forall i | 0 <= i < |detail| :: DetailOk(m, detail[i])
    ensures ok ==> keys' == keys + KeysOf(SeqRefs(detail))
  {
    hide KeysOf;
    hide SeqRefs;
    NoKeys();
    assert detail[..0] == [];
    keys' := keys;
    for i := 0 to |detail|
      invariant forall j | 0 <= j < i :: DetailOk(m, detail[j])
      invariant keys' == keys + KeysOf(SeqRefs(detail[..i]))
    {
      if !DetailOk(m, detail[i]) {
        return false, keys';
      }
      keys' := keys' + {detail[i].Key()};
      KeysStep(detail, i);
    }
    assert detail[..|detail|] == detail;
    ok := true;
  }

  method ValidateEncoded(m: FieldMap, refs: seq<FieldRef>, keys: set<string>) returns (ok: bool, keys': set<string>)
    ensures ok <==> forall i | 0 <= i < |refs| :: RefOk(m, refs[i])
    ensures ok ==> keys' == keys + KeysOf(SeqRefs(refs))
  {
    hide KeysOf;
    hide SeqRefs;
    NoKeys();
    assert refs[..0] == [];
    keys' := keys;
    for i := 0 to |refs|
      invariant forall j | 0 <= j < i :: RefOk(m, refs[j])
      invariant keys' == keys + KeysOf(SeqRefs(refs[..i]))
    {
      if !RefOk(m, refs[i]) {
        return false, keys';
      }
      keys' := keys' + {refs[i].Key()};
      KeysStep(refs, i);
    }
    assert refs[..|refs|] == refs;
    ok := true;
  }

  lemma KeysStep(refs: seq<FieldRef>, i: nat)
    requires i < |refs|
    ensures KeysOf(SeqRefs(refs[..i + 1])) == KeysOf(SeqRefs(refs[..i])) + {refs[i].Key()}
  {
    assert refs[..i + 1] == refs[..i] + [refs[i]];
    assert SeqRefs(refs[..i + 1]) == SeqRefs(refs[..i]) + {refs[i]};
    KeysOfUnion(SeqRefs(refs[..i]), {refs[i]});
    assert KeysOf({refs[i]}) == {refs[i].Key()};
  }

  lemma NoKeys()
    ensures KeysOf(SeqRefs([])) == {}
  {
  }

  method Validate(m: Option<FieldMap>, s: VizSpec) returns (ok: bool)
    ensures ok <==> ValidSpec(m, s)
  {
    if !ScalarsOk(s) || m.None? {
      return false;
    }
    var keys;
    ok, keys := ValidateFields(m.value, s);
    if !ok { return; }
    for i := 0 to |s.sort|
      invariant forall j | 0 <= j < i :: s.sort[j].field in KeysOf(Placed(s))
    {
      if s.sort[i].field !in keys {
        return false;
      }
    }
  }

  // ---------- the query ----------

  datatype Query = Query(
    groupBy: seq<string>, measures: seq<FieldRef>, cube: string, grain: string, sort: seq<OrderField>)

  function Name(n: string): string { n }
  function RefKey(r: FieldRef): string { r.Key() }

  function DimNames(refs: seq<FieldRef>): seq<string> {
    if refs == [] then []
    else
      var r, rest := refs[|refs| - 1], DimNames(refs[..|refs| - 1]);
      if r.IsDimension() then rest + [r.name] else rest
  }

  function MeasureRefs(refs: seq<FieldRef>): seq<FieldRef> {
    if refs == [] then []
    else
      var r, rest := refs[|refs| - 1], MeasureRefs(refs[..|refs| - 1]);
      if r.IsDimension() then rest else rest + [r]
  }

  /** Dimensions in order of first use, each once. */
  function GroupBy(refs: seq<FieldRef>): seq<string> { DistinctBy(Name, DimNames(refs)) }

  /** Measures in order of first use, each key once. */
  function Measures(refs: seq<FieldRef>): seq<FieldRef> { DistinctBy(RefKey, MeasureRefs(refs)) }

  function MeasureKeys(refs: seq<FieldRef>): set<string> { Keys(RefKey, MeasureRefs(refs)) }

  predicate Answerable(refs: seq<FieldRef>) {
    forall i | 0 <= i < |refs| :: refs[i].agg != COUNT_DISTINCT
  }

  predicate Sortable(refs: seq<FieldRef>, sort: seq<OrderField>) {
    forall i | 0 <= i < |sort| :: sort[i].field in GroupBy(refs) || sort[i].field in MeasureKeys(refs)
  }

  function TupleFields(t: seq<Tuple>): seq<FieldRef> {
    if t == [] then [] else TupleFields(t[..|t| - 1]) + t[|t| - 1].fields
  }

  /** Every reference in the order the query visits them. */
  function Refs(s: VizSpec): seq<FieldRef> {
    TupleFields(Normalize(s.rows)) + TupleFields(Normalize(s.columns)) + s.detail + Encoded(s.encodings)
  }

  datatype Error = Invalid(message: string)

  function AggregateQuery(s: VizSpec): Result<Query, Error> {
    var refs := Refs(s);
    if !Answerable(refs) then Err(Invalid("count_distinct is not answerable from additive partials"))
    else if !Sortable(refs, s.sort) then Err(Invalid("sort key is neither grouped by nor computed"))
    else Ok(Query(GroupBy(refs), Measures(refs), s.cube, s.grain, s.sort))
  }

  /** One reference more. */
  lemma AddRef(refs: seq<FieldRef>, r: FieldRef)
    ensures GroupBy(refs + [r])
            == if r.IsDimension() && r.name !in GroupBy(refs) then GroupBy(refs) + [r.name] else GroupBy(refs)
    ensures Measures(refs + [r])
            == if r.IsDimension() || r.Key() in MeasureKeys(refs) then Measures(refs) else Measures(refs) + [r]
    ensures MeasureKeys(refs + [r]) == if r.IsDimension() then MeasureKeys(refs) else MeasureKeys(refs) + {r.Key()}
  {
    assert (refs + [r])[..|refs|] == refs;
    GroupByHas(refs, r.name);
    DistinctStep(Name, DimNames(refs), r.name);
    DistinctStep(RefKey, MeasureRefs(refs), r);
  }

  /** The loop that adds references one by one. */
  method BuildQuery(s: VizSpec) returns (r: Result<Query, Error>)
    ensures r == AggregateQuery(s)
  {
    hide GroupBy;
    hide Measures;
    hide MeasureKeys;
    hide Refs;
    var refs := Refs(s);
    var groupBy: seq<string>, measures: seq<FieldRef>, seen: set<string> := [], [], {};
    NoRefs();
    for i := 0 to |refs|
      invariant Answerable(refs[..i])
      invariant groupBy == GroupBy(refs[..i])
      invariant measures == Measures(refs[..i]) && seen == MeasureKeys(refs[..i])
    {
      var ref := refs[i];
      AddRef(refs[..i], ref);
      assert refs[..i + 1] == refs[..i] + [ref];
      if ref.agg == "" {
        if ref.name !in groupBy {
          groupBy := groupBy + [ref.name];
        }
      } else {
        if ref.agg == COUNT_DISTINCT {
          return Err(Invalid("count_distinct is not answerable from additive partials"));
        }
        if ref.Key() !in seen {
          seen := seen + {ref.Key()};
          measures := measures + [ref];
        }
      }
    }
    assert refs[..|refs|] == refs;
    for i := 0 to |s.sort|
      invariant forall j | 0 <= j < i :: s.sort[j].field in groupBy || s.sort[j].field in seen
    {
      if s.sort[i].field !in groupBy && s.sort[i].field !in seen {
        return Err(Invalid("sort key is neither grouped by nor computed"));
      }
    }
    r := Ok(Query(groupBy, measures, s.cube, s.grain, s.sort));
  }

  lemma NoRefs()
    ensures GroupBy([]) == [] && Measures([]) == [] && MeasureKeys([]) == {}
  {
  }

  lemma GroupByHas(refs: seq<FieldRef>, n: string)
    ensures n in GroupBy(refs) <==> n in Keys(Name, DimNames(refs))
  {
    DistinctKeys(Name, DimNames(refs));
    var g := GroupBy(refs);
    if n in g {
      var i :| 0 <= i < |g| && g[i] == n;
      assert Name(g[i]) in Keys(Name, g);
    }
  }

  lemma {:induction false} DimNamesHave(refs: seq<FieldRef>, n: string)
    ensures n in Keys(Name, DimNames(refs)) <==> FieldRef(n, "") in refs
  {
    if refs != [] {
      var p, r := refs[..|refs| - 1], refs[|refs| - 1];
      assert refs == p + [r];
      DimNamesHave(p, n);
      if r.IsDimension() {
        DistinctStep(Name, DimNames(p), r.name);
        assert r == FieldRef(r.name, "");
      }
    }
  }

  lemma {:induction false} MeasureRefsHave(refs: seq<FieldRef>, r: FieldRef)
    ensures r in MeasureRefs(refs) <==> r in refs && !r.IsDimension()
  {
    if refs != [] {
      assert refs == refs[..|refs| - 1] + [refs[|refs| - 1]];
      MeasureRefsHave(refs[..|refs| - 1], r);
    }
  }

  /** Exactly the placed dimensions are grouped by and exactly the placed measures computed, none twice. */
  lemma QueryCovers(refs: seq<FieldRef>)
    ensures NoRepeats(Name, GroupBy(refs)) && NoRepeats(RefKey, Measures(refs))
    ensures forall n :: n in GroupBy(refs) <==> FieldRef(n, "") in refs
    ensures forall r | r in refs && !r.IsDimension() :: r.Key() in Keys(RefKey, Measures(refs))
    ensures forall r | r in Measures(refs) :: r in refs && !r.IsDimension()
  {
    DistinctNoRepeats(Name, DimNames(refs));
    DistinctNoRepeats(RefKey, MeasureRefs(refs));
    DistinctKeys(RefKey, MeasureRefs(refs));
    forall n ensures n in GroupBy(refs) <==> FieldRef(n, "") in refs {
      GroupByHas(refs, n);
      DimNamesHave(refs, n);
    }
    forall r | r in refs && !r.IsDimension() ensures r.Key() in Keys(RefKey, Measures(refs)) {
      MeasureRefsHave(refs, r);
      var i :| 0 <= i < |MeasureRefs(refs)| && MeasureRefs(refs)[i] == r;
      assert RefKey(MeasureRefs(refs)[i]) in Keys(RefKey, MeasureRefs(refs));
    }
    forall r | r in Measures(refs) ensures r in refs && !r.IsDimension() {
      MeasureRefsHave(refs, r);
    }
  }

  /** A key tells its measure apart when no aggregate name has a parenthesis in it. */
  lemma KeysTellApart(a: FieldRef, b: FieldRef)
    requires a.agg != "" && b.agg != "" && '(' !in a.agg && '(' !in b.agg && a.Key() == b.Key()
    ensures a == b
  {
    var k := a.Key();
    assert k == a.agg + ("(" + a.name + ")") && k == b.agg + ("(" + b.name + ")");
    assert k[|a.agg|] == '(' && k[|b.agg|] == '(';
    assert forall i | 0 <= i < |a.agg| :: k[i] == a.agg[i] && a.agg[i] in a.agg;
    assert forall i | 0 <= i < |b.agg| :: k[i] == b.agg[i] && b.agg[i] in b.agg;
    var n := |a.agg|;
    assert a.agg == k[..n] && b.agg == k[..n];
    assert a.name == k[n + 1..|k| - 1] && b.name == k[n + 1..|k| - 1];
  }

  // ---------- compile ----------

  datatype CubeSchema = CubeSchema(
    fields: Option<FieldMap>, name: string, hierarchies: seq<seq<string>>, grains: seq<string>)

  datatype PaneKey = PaneKey(row: string, column: string)

  function TupleKey(t: Tuple): string { JoinKeys(t.fields) }

  function JoinKeys(fields: seq<FieldRef>): string {
    if fields == [] then ""
    else if |fields| == 1 then fields[0].Key()
    else fields[0].Key() + "," + JoinKeys(fields[1..])
  }

  datatype Kind = Ordinal | Quantitative | Temporal

  function KindOf(t: Tuple, m: FieldMap): Kind {
    if t.fields == [] then Ordinal
    else
      var last := t.fields[|t.fields| - 1];
      if last.agg != "" then Quantitative
      else if last.name in m && m[last.name].role.TimeRole? then Temporal
      else Ordinal
  }

  function MarkFor(explicit: Mark, row: Kind, col: Kind): Mark {
    if explicit != MarkAuto then explicit
    else if row == Quantitative && col == Quantitative then MarkPoint
    else if (row == Temporal && col == Quantitative) || (row == Quantitative && col == Temporal) then MarkLine
    else if row == Quantitative || col == Quantitative then MarkBar
    else MarkText
  }

  datatype Plan = Plan(query: Query, panes: seq<PaneKey>, marks: map<PaneKey, Mark>)

  predicate CubeOk(s: VizSpec, cube: CubeSchema) {
    && cube.fields.Some? && s.cube == cube.name
    && (s.grain == "" || cube.grains == [] || s.grain in cube.grains)
  }

  /** One row of the pane table. */
  function PaneRow(r: Tuple, cols: seq<Tuple>): (out: seq<PaneKey>)
    ensures |out| == |cols| && forall j | 0 <= j < |cols| :: out[j] == PaneKey(TupleKey(r), TupleKey(cols[j]))
  {
    seq(|cols|, j requires 0 <= j < |cols| => PaneKey(TupleKey(r), TupleKey(cols[j])))
  }

  /** Rows outer, columns inner. */
  function PaneTable(rows: seq<Tuple>, cols: seq<Tuple>): seq<PaneKey> {
    if rows == [] then [] else PaneTable(rows[..|rows| - 1], cols) + PaneRow(rows[|rows| - 1], cols)
  }

  /** The mark of each pane of a row. */
  function MarkRow(s: VizSpec, m: FieldMap, r: Tuple, cols: seq<Tuple>): (out: seq<Mark>)
    ensures |out| == |cols| && forall j | 0 <= j < |cols| :: out[j] == MarkFor(s.mark, KindOf(r, m), KindOf(cols[j], m))
  {
    seq(|cols|, j requires 0 <= j < |cols| => MarkFor(s.mark, KindOf(r, m), KindOf(cols[j], m)))
  }

  /** The marks of the pane table, place by place. */
  function MarkTable(s: VizSpec, m: FieldMap, rows: seq<Tuple>, cols: seq<Tuple>): seq<Mark> {
    if rows == [] then [] else MarkTable(s, m, rows[..|rows| - 1], cols) + MarkRow(s, m, rows[|rows| - 1], cols)
  }

  /** `marks` gives each pane key the mark of the last place that has it, and has no other key. */
  ghost predicate LastMarks(panes: seq<PaneKey>, list: seq<Mark>, marks: map<PaneKey, Mark>) {
    && |panes| == |list|
    && (forall p | p in panes :: p in marks)
    && (forall p | p in marks :: exists k :: LastAt(panes, list, p, marks[p], k))
  }

  ghost predicate LastAt(panes: seq<PaneKey>, list: seq<Mark>, p: PaneKey, mark: Mark, k: int) {
    0 <= k < |panes| == |list| && panes[k] == p && list[k] == mark && p !in panes[k + 1..]
  }

  lemma OneMoreMark(panes: seq<PaneKey>, list: seq<Mark>, marks: map<PaneKey, Mark>, key: PaneKey, mark: Mark)
    requires LastMarks(panes, list, marks)
    ensures LastMarks(panes + [key], list + [mark], marks[key := mark])
  {
    var panes', list', marks' := panes + [key], list + [mark], marks[key := mark];
    forall p | p in marks'
      ensures exists k :: LastAt(panes', list', p, marks'[p], k)
    {
      if p == key {
        assert LastAt(panes', list', p, mark, |panes|);
      } else {
        var k :| LastAt(panes, list, p, marks[p], k);
        assert panes'[k + 1..] == panes[k + 1..] + [key];
        assert LastAt(panes', list', p, marks'[p], k);
      }
    }
  }

  method Compile(s: VizSpec, cube: CubeSchema) returns (r: Result<Plan, Error>)
    ensures r.Ok? <==> CubeOk(s, cube) && AggregateQuery(s).Ok?
    ensures r.Ok? ==>
              && r.value.query == AggregateQuery(s).value
              && r.value.panes == PaneTable(Normalize(s.rows), Normalize(s.columns))
              && LastMarks(r.value.panes, MarkTable(s, cube.fields.value, Normalize(s.rows), Normalize(s.columns)),
                           r.value.marks)
  {
    hide AggregateQuery;
    hide Normalize;
    hide MarkFor;
    hide KindOf;
    hide TupleKey;
    hide LastMarks;
    if !CubeOk(s, cube) {
      return Err(Invalid("cube or grain does not match"));
    }
    var rows := NormalizeLoop(s.rows);
    var cols := NormalizeLoop(s.columns);
    var q := BuildQuery(s);
    if q.Err? {
      return Err(q.error);
    }
    var m := cube.fields.value;
    var panes: seq<PaneKey>, marks: map<PaneKey, Mark> := [], map[];
    ghost var list: seq<Mark> := [];
    NoMarks();
    for i := 0 to |rows|
      invariant panes == PaneTable(rows[..i], cols) && list == MarkTable(s, m, rows[..i], cols)
      invariant LastMarks(panes, list, marks)
    {
      ghost var before, listed := panes, list;
      for j := 0 to |cols|
        invariant panes == before + PaneRow(rows[i], cols)[..j] && list == listed + MarkRow(s, m, rows[i], cols)[..j]
        invariant LastMarks(panes, list, marks)
      {
        var key := PaneKey(TupleKey(rows[i]), TupleKey(cols[j]));
        var mark := MarkFor(s.mark, KindOf(rows[i], m), KindOf(cols[j], m));
        OneMoreMark(panes, list, marks, key, mark);
        panes := panes + [key];
        list := list + [mark];
        marks := marks[key := mark];
      }
      assert rows[..i + 1][..i] == rows[..i];
      assert PaneRow(rows[i], cols)[..|cols|] == PaneRow(rows[i], cols);
      assert MarkRow(s, m, rows[i], cols)[..|cols|] == MarkRow(s, m, rows[i], cols);
    }
    assert rows[..|rows|] == rows;
    r := Ok(Plan(q.value, panes, marks));
  }

  lemma NoMarks()
    ensures LastMarks([], [], map[])
  {
  }

  // ---------- validated specs compile ----------

  lemma {:induction false} FieldsOfTuples(t: seq<Tuple>, r: FieldRef)
    ensures r in TupleFields(t) <==> r in TupleRefs(t)
  {
    if t != [] {
      var n := |t| - 1;
      FieldsOfTuples(t[..n], r);
      RefsConcat(t[..n], [t[n]]);
      assert t == t[..n] + [t[n]];
      assert r in TupleRefs([t[n]]) <==> r in t[n].fields by {
        if r in t[n].fields {
          var j :| 0 <= j < |t[n].fields| && t[n].fields[j] == r;
          assert [t[n]][0].fields[j] == r;
        }
      }
    }
  }

  lemma ShelfRefs(m: FieldMap, s: Shelf, r: FieldRef)
    requires ShelfOk(m, s, 1)
    ensures r in TupleFields(Normalize(s)) <==> r in Leaves(s)
  {
    FieldsOfTuples(Normalize(s), r);
    if !s.Nil? {
      OkIsWellFormed(m, s, 1);
      NormalizeKeepsLeaves(s);
    }
  }

  /** The query of a valid spec sees exactly the placed fields: normalization drops none and adds none. */
  lemma RefsArePlaced(m: FieldMap, s: VizSpec, r: FieldRef)
    requires FieldsOk(m, s)
    ensures r in Refs(s) <==> r in Placed(s)
  {
    ShelfRefs(m, s.rows, r);
    ShelfRefs(m, s.columns, r);
  }

  /** A validated spec on its own cube compiles exactly when it asks for no count_distinct. */
  lemma ValidSpecCompiles(s: VizSpec, cube: CubeSchema)
    requires ValidSpec(cube.fields, s) && CubeOk(s, cube)
    ensures AggregateQuery(s).Ok? <==> forall r | r in Placed(s) :: r.agg != COUNT_DISTINCT
  {
    var m, refs := cube.fields.value, Refs(s);
    forall r ensures r in refs <==> r in Placed(s) { RefsArePlaced(m, s, r); }
    assert Answerable(refs) <==> forall r | r in refs :: r.agg != COUNT_DISTINCT by {
      assert forall i | 0 <= i < |refs| :: refs[i] in refs;
    }
    forall i | 0 <= i < |s.sort| ensures s.sort[i].field in GroupBy(refs) || s.sort[i].field in MeasureKeys(refs) {
      var r :| r in Placed(s) && r.Key() == s.sort[i].field;
      SortKeyFound(refs, r);
    }
  }

  lemma SortKeyFound(refs: seq<FieldRef>, r: FieldRef)
    requires r in refs
    ensures r.Key() in GroupBy(refs) || r.Key() in MeasureKeys(refs)
  {
    if r.IsDimension() {
      assert r == FieldRef(r.name, "");
      DimNamesHave(refs, r.name);
      GroupByHas(refs, r.name);
    } else {
      MeasureRefsHave(refs, r);
      var i :| 0 <= i < |MeasureRefs(refs)| && MeasureRefs(refs)[i] == r;
      assert RefKey(MeasureRefs(refs)[i]) == r.Key();
    }
  }

  /** Every field of every pane is answered by the query. */
  lemma PanesAreCovered(s: VizSpec, t: Tuple, r: FieldRef)
    requires AggregateQuery(s).Ok? && (t in Normalize(s.rows) || t in Normalize(s.columns)) && r in t.fields
    ensures var q := AggregateQuery(s).value;
            if r.IsDimension() then r.name in q.groupBy else r.Key() in Keys(RefKey, q.measures)
  {
    var table := if t in Normalize(s.rows) then Normalize(s.rows) else Normalize(s.columns);
    var i, j :| 0 <= i < |table| && table[i] == t && 0 <= j < |t.fields| && t.fields[j] == r;
    assert table[i].fields[j] in TupleRefs(table);
    FieldsOfTuples(table, r);
    assert r in Refs(s);
    QueryCovers(Refs(s));
    assert r.IsDimension() ==> r == FieldRef(r.name, "");
  }
}

/** The total order of a list query, and the seek predicate derived from the same columns. */
module Keyset {
  import opened Wrappers
  import opened Filters
  import opened Sequences
  import Ordering

  const ID_COLUMN := "id"
  const CREATED_AT := "created_at"

  datatype DerivedSort = DerivedSort(spec: string)
  datatype OrderField = OrderField(field: string, desc: bool)

  /** One ORDER BY term: a plain column, a column ordered by a list of values, or an expression with no base column. */
  datatype KeysetColumn =
    | Base(column: string, desc: bool)
    | Ordinal(column: string, values: seq<string>, desc: bool)
    | Joined(join: JoinTarget, desc: bool)
    | Derived(derived: DerivedSort, desc: bool)
  {
    /** The base column, "" for an expression. */
    function Column(): string {
      if Base? || Ordinal? then column else ""
    }
    predicate HasColumn() { Base? || Ordinal? }
  }

  /** What a resource's allow-list and store know about a sort field; a nil resolver answers None or []. */
  datatype Resolvers = Resolvers(
    column: ColumnFn,
    join: JoinFn,
    ordinal: string -> seq<string>,
    derived: string -> Option<DerivedSort>)

  // ---------- the column list ----------

  function JoinNames(names: seq<string>): string {
    if names == [] then "" else if |names| == 1 then names[0] else names[0] + "," + JoinNames(names[1..])
  }

  /** A candidate column and the key it is deduplicated on. */
  datatype Candidate = Candidate(key: string, col: KeysetColumn)

  function CandidateKey(c: Candidate): string { c.key }

  function CandidateOf(rs: Resolvers, of: OrderField): Candidate {
    match rs.join(of.field)
    case Some(j) => Candidate("\0join\0" + j.table + "\0" + JoinNames(j.columns), Joined(j, of.desc))
    case None =>
      match rs.derived(of.field)
      case Some(d) => Candidate("\0derived\0" + of.field, Derived(d, of.desc))
      case None =>
        var col := rs.column(of.field);
        var ord := rs.ordinal(of.field);
        if |ord| > 0 then Candidate(col, Ordinal(col, ord, of.desc)) else Candidate(col, Base(col, of.desc))
  }

  function Candidates(rs: Resolvers, ofs: seq<OrderField>): (cs: seq<Candidate>)
    ensures |cs| == |ofs|
    ensures forall i | 0 <= i < |ofs| :: cs[i] == CandidateOf(rs, ofs[i])
  {
    seq(|ofs|, i requires 0 <= i < |ofs| => CandidateOf(rs, ofs[i]))
  }

  function PlainDesc(col: string): Candidate {
    Candidate(col, Base(col, true))
  }

  function EffectiveTiebreaker(tiebreaker: string): string {
    if tiebreaker == "" then CREATED_AT else tiebreaker
  }

  function AllCandidates(rs: Resolvers, ofs: seq<OrderField>, tiebreaker: string): seq<Candidate> {
    Candidates(rs, ofs) + [PlainDesc(EffectiveTiebreaker(tiebreaker))] + [PlainDesc(ID_COLUMN)]
  }

  function Columns(cs: seq<Candidate>): (cols: seq<KeysetColumn>)
    ensures |cols| == |cs|
    ensures forall i | 0 <= i < |cs| :: cols[i] == cs[i].col
  {
    seq(|cs|, i requires 0 <= i < |cs| => cs[i].col)
  }

  /** Sort fields, then the tiebreaker descending, then the id descending; of equal columns the first stays. */
  function KeysetColumns(rs: Resolvers, ofs: seq<OrderField>, tiebreaker: string): seq<KeysetColumn> {
    Columns(DistinctBy(CandidateKey, AllCandidates(rs, ofs, tiebreaker)))
  }

  lemma ColumnsAppend(cs: seq<Candidate>, c: Candidate)
    ensures Columns(cs + [c]) == Columns(cs) + [c.col]
  {
  }

  /** The loop over a mutable `seen` set and an output slice. */
  method BuildKeysetColumns(rs: Resolvers, ofs: seq<OrderField>, tiebreaker: string)
    returns (out: seq<KeysetColumn>)
    ensures out == KeysetColumns(rs, ofs, tiebreaker)
  {
    hide Keys;
    hide DistinctBy;
    hide Columns;
    hide CandidateOf;
    NothingCollected();
    var tb := if tiebreaker == "" then CREATED_AT else tiebreaker;
    var seen: set<string> := {};
    out := [];
    ghost var done: seq<Candidate> := [];
    for i := 0 to |ofs|
      invariant done == Candidates(rs, ofs)[..i] && Collected(done, out, seen)
    {
      var c := CandidateOf(rs, ofs[i]);
      CollectOne(done, out, seen, c);
      if c.key !in seen {
        seen := seen + {c.key};
        out := out + [c.col];
      }
      done := done + [c];
    }
    assert done == Candidates(rs, ofs);
    out, seen, done := AppendColumn(out, seen, tb, done);
    out, seen, done := AppendColumn(out, seen, ID_COLUMN, done);
  }

  method AppendColumn(out: seq<KeysetColumn>, seen: set<string>, col: string, ghost done: seq<Candidate>)
    returns (out': seq<KeysetColumn>, seen': set<string>, ghost done': seq<Candidate>)
    requires Collected(done, out, seen)
    ensures done' == done + [PlainDesc(col)] && Collected(done', out', seen')
  {
    CollectOne(done, out, seen, PlainDesc(col));
    done' := done + [PlainDesc(col)];
    if col in seen {
      out', seen' := out, seen;
    } else {
      out', seen' := out + [Base(col, true)], seen + {col};
    }
  }

  /** `out` and `seen` are what the loop has after the candidates `done`. */
  ghost predicate Collected(done: seq<Candidate>, out: seq<KeysetColumn>, seen: set<string>) {
    seen == Keys(CandidateKey, done) && out == Columns(DistinctBy(CandidateKey, done))
  }

  lemma NothingCollected()
    ensures Collected([], [], {})
  {
  }

  lemma CollectOne(done: seq<Candidate>, out: seq<KeysetColumn>, seen: set<string>, c: Candidate)
    requires Collected(done, out, seen)
    ensures if c.key in seen then Collected(done + [c], out, seen)
            else Collected(done + [c], out + [c.col], seen + {c.key})
  {
    hide Keys;
    hide DistinctBy;
    DistinctStep(CandidateKey, done, c);
    ColumnsAppend(DistinctBy(CandidateKey, done), c);
    if c.key in seen {
      assert seen + {c.key} == seen;
    }
  }

  ghost predicate NoRepeatedColumn(cols: seq<KeysetColumn>) {
    forall i, j | 0 <= i < j < |cols| && cols[i].HasColumn() && cols[j].HasColumn() ::
      cols[i].Column() != cols[j].Column()
  }

  /** A name that cannot collide with the internal keys of joined and derived sorts. */
  predicate IsColumnName(name: string) {
    name != "" && name[0] != '\0'
  }

  lemma CandidateKeys(rs: Resolvers, ofs: seq<OrderField>, tiebreaker: string)
    ensures forall c | c in AllCandidates(rs, ofs, tiebreaker) && c.col.HasColumn() :: c.key == c.col.Column()
    ensures forall c | c in AllCandidates(rs, ofs, tiebreaker) && !c.col.HasColumn() :: !IsColumnName(c.key)
  {
  }

  lemma ColumnOfName(rs: Resolvers, ofs: seq<OrderField>, tiebreaker: string, name: string)
    requires name in Keys(CandidateKey, AllCandidates(rs, ofs, tiebreaker)) && IsColumnName(name)
    ensures exists c :: c in KeysetColumns(rs, ofs, tiebreaker) && c.HasColumn() && c.Column() == name
  {
    var cs := AllCandidates(rs, ofs, tiebreaker);
    var ds := DistinctBy(CandidateKey, cs);
    DistinctKeys(CandidateKey, cs);
    CandidateKeys(rs, ofs, tiebreaker);
    assert name in Keys(CandidateKey, ds);
    var i :| 0 <= i < |ds| && CandidateKey(ds[i]) == name;
    assert ds[i] in ds && ds[i] in cs;
    assert Columns(ds)[i] == ds[i].col;
  }

  /** No base column is ordered by twice. */
  lemma ColumnsDoNotRepeat(rs: Resolvers, ofs: seq<OrderField>, tiebreaker: string)
    ensures NoRepeatedColumn(KeysetColumns(rs, ofs, tiebreaker))
  {
    var cs := AllCandidates(rs, ofs, tiebreaker);
    var ds := DistinctBy(CandidateKey, cs);
    DistinctKeys(CandidateKey, cs);
    DistinctNoRepeats(CandidateKey, cs);
    CandidateKeys(rs, ofs, tiebreaker);
    var cols := Columns(ds);
    forall i, j | 0 <= i < j < |cols| && cols[i].HasColumn() && cols[j].HasColumn()
      ensures cols[i].Column() != cols[j].Column()
    {
      assert ds[i] in cs && ds[j] in cs;
      assert CandidateKey(ds[i]) != CandidateKey(ds[j]);
    }
  }

  /** The tiebreaker and the id are always among the columns. */
  lemma ColumnsEndTheOrder(rs: Resolvers, ofs: seq<OrderField>, tiebreaker: string)
    requires IsColumnName(EffectiveTiebreaker(tiebreaker))
    ensures exists c :: c in KeysetColumns(rs, ofs, tiebreaker)
              && c.HasColumn() && c.Column() == EffectiveTiebreaker(tiebreaker)
    ensures exists c :: c in KeysetColumns(rs, ofs, tiebreaker) && c.HasColumn() && c.Column() == ID_COLUMN
  {
    var cs := AllCandidates(rs, ofs, tiebreaker);
    assert CandidateKey(cs[|ofs|]) == EffectiveTiebreaker(tiebreaker);
    assert CandidateKey(cs[|ofs| + 1]) == ID_COLUMN;
    ColumnOfName(rs, ofs, tiebreaker, EffectiveTiebreaker(tiebreaker));
    ColumnOfName(rs, ofs, tiebreaker, ID_COLUMN);
  }

  /** A sort field that is the first to name its column is ordered by, in the caller's own direction. */
  lemma SortFieldIsKept(rs: Resolvers, ofs: seq<OrderField>, tiebreaker: string, i: nat)
    requires i < |ofs| && CandidateOf(rs, ofs[i]).key !in Keys(CandidateKey, Candidates(rs, ofs)[..i])
    ensures CandidateOf(rs, ofs[i]).col in KeysetColumns(rs, ofs, tiebreaker)
  {
    var cs := AllCandidates(rs, ofs, tiebreaker);
    assert cs[i] == CandidateOf(rs, ofs[i]) && cs[..i] == Candidates(rs, ofs)[..i];
    DistinctKeepsFirst(CandidateKey, cs, i);
    var ds := DistinctBy(CandidateKey, cs);
    var k :| 0 <= k < |ds| && ds[k] == cs[i];
    assert Columns(ds)[k] == cs[i].col;
  }

  /** The default order: tiebreaker descending, id descending. */
  lemma DefaultColumns(rs: Resolvers, tiebreaker: string)
    ensures var tb := EffectiveTiebreaker(tiebreaker);
            KeysetColumns(rs, [], tiebreaker) ==
            if tb == ID_COLUMN then [Base(ID_COLUMN, true)] else [Base(tb, true), Base(ID_COLUMN, true)]
  {
    var a, b := PlainDesc(EffectiveTiebreaker(tiebreaker)), PlainDesc(ID_COLUMN);
    assert AllCandidates(rs, [], tiebreaker) == [] + [a] + [b];
    DistinctStep(CandidateKey, [], a);
    DistinctStep(CandidateKey, [] + [a], b);
    assert DistinctBy(CandidateKey, [] + [a]) == [a];
  }

  // ---------- rows and their order ----------

  type Row = map<string, Value>

  /** What a datastore decides for itself: the order of values, text matching, and everything behind a join. */
  datatype Db = Db(
    lt: (Value, Value) -> bool,
    like: (Value, Value) -> bool,
    joined: (JoinTarget, Operator, Value, Row) -> bool,
    joinKey: (JoinTarget, Row) -> Value,
    derivedKey: (DerivedSort, Row) -> Value)

  /** The values of a datastore are totally ordered. */
  ghost predicate Ordered(db: Db) {
    && (forall x :: !db.lt(x, x))
    && (forall x, y :: x == y || db.lt(x, y) || db.lt(y, x))
    && (forall x, y, z :: db.lt(x, y) && db.lt(y, z) ==> db.lt(x, z))
  }

  /** One comparison on a row's own column; a missing column (NULL) answers no comparison. */
  predicate Compare(db: Db, row: Row, col: string, op: Operator, v: Value) {
    col in row &&
    var got := row[col];
    match op
    case Eq => got == v
    case Ne => got != v
    case In => v.List? && got in v.items
    case NotIn => v.List? && got !in v.items
    case Like => db.like(got, v)
    case Gt => db.lt(v, got)
    case Gte => !db.lt(got, v)
    case Lt => db.lt(got, v)
    case Lte => !db.lt(v, got)
  }

  function RowSemantics(db: Db): Semantics<Row> {
    Semantics((col, op, v, row) => Compare(db, row, col, op, v), db.joined)
  }

  function Get(row: Row, col: string): Value {
    if col in row then row[col] else Null
  }

  function PositionIn(values: seq<string>, v: Value): nat {
    if values == [] then 0 else if v == Text(values[0]) then 0 else 1 + PositionIn(values[1..], v)
  }

  /** What one ORDER BY term compares. */
  function SortKey(db: Db, row: Row, c: KeysetColumn): Value {
    match c
    case Base(col, _) => Get(row, col)
    case Ordinal(col, values, _) => Num(PositionIn(values, Get(row, col)))
    case Joined(j, _) => db.joinKey(j, row)
    case Derived(d, _) => db.derivedKey(d, row)
  }

  /** Lexicographic order of rows over the columns, each in its own direction. */
  predicate Before(db: Db, cols: seq<KeysetColumn>, a: Row, b: Row) {
    cols != [] &&
    var ka, kb := SortKey(db, a, cols[0]), SortKey(db, b, cols[0]);
    if ka == kb then Before(db, cols[1..], a, b)
    else if cols[0].desc then db.lt(kb, ka) else db.lt(ka, kb)
  }

  function ByColumns(db: Db, cols: seq<KeysetColumn>): (Row, Row) -> bool {
    (a, b) => Before(db, cols, a, b)
  }

  lemma {:induction false} BeforeTransitive(db: Db, cols: seq<KeysetColumn>, a: Row, b: Row, c: Row)
    requires Ordered(db) && Before(db, cols, a, b) && Before(db, cols, b, c)
    ensures Before(db, cols, a, c)
  {
    var ka, kb, kc := SortKey(db, a, cols[0]), SortKey(db, b, cols[0]), SortKey(db, c, cols[0]);
    if ka == kb && kb == kc {
      BeforeTransitive(db, cols[1..], a, b, c);
    }
  }

  lemma {:induction false} BeforeIrreflexive(db: Db, cols: seq<KeysetColumn>, a: Row)
    ensures !Before(db, cols, a, a)
  {
    if cols != [] {
      BeforeIrreflexive(db, cols[1..], a);
    }
  }

  lemma {:induction false} BeforeConnects(db: Db, cols: seq<KeysetColumn>, a: Row, b: Row, i: nat)
    requires Ordered(db) && i < |cols| && SortKey(db, a, cols[i]) != SortKey(db, b, cols[i])
    ensures Before(db, cols, a, b) || Before(db, cols, b, a)
  {
    if SortKey(db, a, cols[0]) == SortKey(db, b, cols[0]) {
      BeforeConnects(db, cols[1..], a, b, i - 1);
    }
  }

  /** A table's ids are present and tell its rows apart. */
  ghost predicate UniqueIds(rows: set<Row>) {
    && (forall r | r in rows :: ID_COLUMN in r)
    && (forall r, s | r in rows && s in rows && r[ID_COLUMN] == s[ID_COLUMN] :: r == s)
  }

  predicate IsPlainId(c: KeysetColumn) {
    c.Base? && c.column == ID_COLUMN
  }

  /** With the id among the plain columns the order is total on every table with unique ids. */
  lemma OrderIsTotal(db: Db, cols: seq<KeysetColumn>, rows: set<Row>)
    requires Ordered(db) && UniqueIds(rows) && exists i :: 0 <= i < |cols| && IsPlainId(cols[i])
    ensures Ordering.TotalOn(ByColumns(db, cols), rows)
  {
    var lt := ByColumns(db, cols);
    var i :| 0 <= i < |cols| && IsPlainId(cols[i]);
    forall x | x in rows ensures !lt(x, x) { BeforeIrreflexive(db, cols, x); }
    forall x, y | x in rows && y in rows ensures x == y || lt(x, y) || lt(y, x) {
      if x != y {
        BeforeConnects(db, cols, x, y, i);
      }
    }
    forall x, y, z | x in rows && y in rows && z in rows && lt(x, y) && lt(y, z) ensures lt(x, z) {
      BeforeTransitive(db, cols, x, y, z);
    }
  }

  /** The first sort field on the id column, if there is one, does not order it by a list of values. */
  ghost predicate IdSortedPlainly(rs: Resolvers, ofs: seq<OrderField>) {
    forall i | 0 <= i < |ofs| && FirstOnId(rs, ofs, i) :: !CandidateOf(rs, ofs[i]).col.Ordinal?
  }

  ghost predicate FirstOnId(rs: Resolvers, ofs: seq<OrderField>, i: nat)
    requires i < |ofs|
  {
    CandidateOf(rs, ofs[i]).key == ID_COLUMN && ID_COLUMN !in Keys(CandidateKey, Candidates(rs, ofs)[..i])
  }

  lemma {:induction false} FirstWithKey(cs: seq<Candidate>, key: string) returns (i: nat)
    requires key in Keys(CandidateKey, cs)
    ensures i < |cs| && cs[i].key == key && key !in Keys(CandidateKey, cs[..i])
  {
    var n := |cs| - 1;
    if key in Keys(CandidateKey, cs[..n]) {
      i := FirstWithKey(cs[..n], key);
      assert cs[..n][..i] == cs[..i];
    } else {
      i := n;
      assert cs == cs[..n] + [cs[n]];
      KeysOfAppend(CandidateKey, cs[..n], cs[n]);
    }
  }

  /** The candidate that puts the id into the order. */
  lemma IdCandidate(rs: Resolvers, ofs: seq<OrderField>, tiebreaker: string) returns (i: nat)
    ensures i < |AllCandidates(rs, ofs, tiebreaker)|
    ensures var c := AllCandidates(rs, ofs, tiebreaker)[i];
            && c.key == ID_COLUMN && c.col.HasColumn() && c.col.Column() == ID_COLUMN
            && c.col in KeysetColumns(rs, ofs, tiebreaker)
            && (i < |ofs| ==> c == CandidateOf(rs, ofs[i]) && FirstOnId(rs, ofs, i))
            && (i >= |ofs| ==> c == PlainDesc(ID_COLUMN))
  {
    hide DistinctBy;
    hide CandidateOf;
    var cs := AllCandidates(rs, ofs, tiebreaker);
    assert CandidateKey(cs[|ofs| + 1]) == ID_COLUMN;
    i := FirstWithKey(cs, ID_COLUMN);
    DistinctKeepsFirst(CandidateKey, cs, i);
    var ds := DistinctBy(CandidateKey, cs);
    var k :| 0 <= k < |ds| && ds[k] == cs[i];
    assert Columns(ds)[k] == cs[i].col;
    CandidateKeys(rs, ofs, tiebreaker);
    assert cs[i] in cs;
    if i < |ofs| {
      assert cs[..i] == Candidates(rs, ofs)[..i];
    }
  }

  lemma PlainIdIsOrderedBy(rs: Resolvers, ofs: seq<OrderField>, tiebreaker: string)
    requires IdSortedPlainly(rs, ofs)
    ensures exists i ::
              0 <= i < |KeysetColumns(rs, ofs, tiebreaker)| && IsPlainId(KeysetColumns(rs, ofs, tiebreaker)[i])
  {
    hide AllCandidates;
    hide KeysetColumns;
    hide CandidateOf;
    hide FirstOnId;
    var i := IdCandidate(rs, ofs, tiebreaker);
    var col := AllCandidates(rs, ofs, tiebreaker)[i].col;
    assert IsPlainId(col);
    var cols := KeysetColumns(rs, ofs, tiebreaker);
    var k :| 0 <= k < |cols| && cols[k] == col;
  }

  /** `KeysetColumns` yields a total order whatever the caller sorts by, the id by a list of values apart. */
  lemma KeysetColumnsTotal(db: Db, rs: Resolvers, ofs: seq<OrderField>, tiebreaker: string, rows: set<Row>)
    requires Ordered(db) && UniqueIds(rows) && IdSortedPlainly(rs, ofs)
    ensures Ordering.TotalOn(ByColumns(db, KeysetColumns(rs, ofs, tiebreaker)), rows)
  {
    PlainIdIsOrderedBy(rs, ofs, tiebreaker);
    OrderIsTotal(db, KeysetColumns(rs, ofs, tiebreaker), rows);
  }

  // ---------- an id ordered by a list of values ----------

  lemma {:induction false} EqualKeysUnordered(db: Db, cols: seq<KeysetColumn>, a: Row, b: Row)
    requires forall i | 0 <= i < |cols| :: SortKey(db, a, cols[i]) == SortKey(db, b, cols[i])
    ensures !Before(db, cols, a, b)
  {
    if cols != [] {
      EqualKeysUnordered(db, cols[1..], a, b);
    }
  }

  lemma {:induction false} AbsentIsLast(values: seq<string>, v: Value)
    requires forall i | 0 <= i < |values| :: v != Text(values[i])
    ensures PositionIn(values, v) == |values|
  {
    if values != [] {
      AbsentIsLast(values[1..], v);
    }
  }

  function Longest(values: seq<string>): (n: nat)
    ensures forall i | 0 <= i < |values| :: |values[i]| <= n
  {
    if values == [] then 0
    else
      var n := Longest(values[1..]);
      if |values[0]| > n then |values[0]| else n
  }

  /** Joined and derived sorts that find nothing to tell rows apart by. */
  ghost predicate Indifferent(db: Db) {
    && (forall j, a, b :: db.joinKey(j, a) == db.joinKey(j, b))
    && (forall d, a, b :: db.derivedKey(d, a) == db.derivedKey(d, b))
  }

  lemma TiedRows(db: Db, rs: Resolvers, ofs: seq<OrderField>, tiebreaker: string, values: seq<string>, desc: bool,
                 x: string, y: string)
    requires Indifferent(db) && Ordinal(ID_COLUMN, values, desc) in KeysetColumns(rs, ofs, tiebreaker)
    requires forall i | 0 <= i < |values| :: x != values[i] && y != values[i]
    ensures !Before(db, KeysetColumns(rs, ofs, tiebreaker), map[ID_COLUMN := Text(x)], map[ID_COLUMN := Text(y)])
  {
    hide KeysetColumns;
    hide Before;
    var cols := KeysetColumns(rs, ofs, tiebreaker);
    ColumnsDoNotRepeat(rs, ofs, tiebreaker);
    var k :| 0 <= k < |cols| && cols[k] == Ordinal(ID_COLUMN, values, desc);
    AbsentIsLast(values, Text(x));
    AbsentIsLast(values, Text(y));
    var a, b: Row := map[ID_COLUMN := Text(x)], map[ID_COLUMN := Text(y)];
    forall i | 0 <= i < |cols| ensures SortKey(db, a, cols[i]) == SortKey(db, b, cols[i]) {
      if i != k && cols[i].HasColumn() {
        assert cols[i].Column() != ID_COLUMN;
      }
    }
    EqualKeysUnordered(db, cols, a, b);
  }

  /** The order is total on every table with unique ids exactly when the id is not ordered by a list of values: two ids
      off the list tie, and the plain id that would tell them apart was dropped as a repeat. */
  lemma TotalIffIdPlain(db: Db, rs: Resolvers, ofs: seq<OrderField>, tiebreaker: string)
    requires Ordered(db) && Indifferent(db)
    ensures (forall rows: set<Row> | UniqueIds(rows) ::
               Ordering.TotalOn(ByColumns(db, KeysetColumns(rs, ofs, tiebreaker)), rows))
            <==> IdSortedPlainly(rs, ofs)
  {
    hide KeysetColumns;
    hide Ordered;
    hide Indifferent;
    hide CandidateOf;
    if IdSortedPlainly(rs, ofs) {
      forall rows: set<Row> | UniqueIds(rows)
        ensures Ordering.TotalOn(ByColumns(db, KeysetColumns(rs, ofs, tiebreaker)), rows)
      {
        KeysetColumnsTotal(db, rs, ofs, tiebreaker, rows);
      }
    } else {
      var i :| 0 <= i < |ofs| && FirstOnId(rs, ofs, i) && CandidateOf(rs, ofs[i]).col.Ordinal?;
      OrdinalIdTies(db, rs, ofs, tiebreaker, i);
    }
  }

  lemma OrdinalIdTies(db: Db, rs: Resolvers, ofs: seq<OrderField>, tiebreaker: string, i: nat)
    requires Indifferent(db) && i < |ofs| && FirstOnId(rs, ofs, i) && CandidateOf(rs, ofs[i]).col.Ordinal?
    ensures exists rows :: UniqueIds(rows) && !Ordering.TotalOn(ByColumns(db, KeysetColumns(rs, ofs, tiebreaker)), rows)
  {
    hide KeysetColumns;
    hide Indifferent;
    var col := CandidateOf(rs, ofs[i]).col;
    SortFieldIsKept(rs, ofs, tiebreaker, i);
    assert col == Ordinal(ID_COLUMN, col.values, col.desc);
    hide CandidateOf;
    var n := Longest(col.values);
    var x, y := seq(n + 1, k => 'a'), seq(n + 2, k => 'a');
    assert |x| != |y|;
    TiedRows(db, rs, ofs, tiebreaker, col.values, col.desc, x, y);
    TiedRows(db, rs, ofs, tiebreaker, col.values, col.desc, y, x);
    var a, b: Row := map[ID_COLUMN := Text(x)], map[ID_COLUMN := Text(y)];
    assert a[ID_COLUMN] != b[ID_COLUMN];
    var rows := {a, b};
    assert UniqueIds(rows);
    assert a in rows && b in rows && a != b;
  }

  /** The values of a row under the keyset columns. */
  function RowKeys(db: Db, cols: seq<KeysetColumn>, row: Row): (ks: seq<Value>)
    ensures |ks| == |cols|
    ensures forall i | 0 <= i < |cols| :: ks[i] == SortKey(db, row, cols[i])
  {
    seq(|cols|, i requires 0 <= i < |cols| => SortKey(db, row, cols[i]))
  }

  /** `row` comes strictly after the cursor position `values`. */
  predicate AfterCursor(db: Db, cols: seq<KeysetColumn>, values: seq<Value>, row: Row)
    requires |values| == |cols|
  {
    cols != [] &&
    var k := SortKey(db, row, cols[0]);
    if k == values[0] then AfterCursor(db, cols[1..], values[1..], row)
    else if cols[0].desc then db.lt(k, values[0]) else db.lt(values[0], k)
  }

  /** A cursor made of a row's keys stands at that row. */
  lemma {:induction false} AfterRowIsBefore(db: Db, cols: seq<KeysetColumn>, at: Row, row: Row)
    ensures AfterCursor(db, cols, RowKeys(db, cols, at), row) == Before(db, cols, at, row)
  {
    if cols != [] {
      AfterRowIsBefore(db, cols[1..], at, row);
      assert RowKeys(db, cols, at)[1..] == RowKeys(db, cols[1..], at);
    }
  }

  // ---------- the seek predicate ----------

  function StrictClause(c: KeysetColumn, v: Value): Filter {
    Clause(c.Column(), if c.desc then Operator.Lt else Operator.Gt, v, None)
  }

  function SeekFilter(cols: seq<KeysetColumn>, values: seq<Value>): Filter
    requires |values| == |cols|
  {
    if cols == [] then Composite([], []) else SeekFrom(cols, values)
  }

  function SeekFrom(cols: seq<KeysetColumn>, values: seq<Value>): Filter
    requires |values| == |cols| > 0
  {
    var strict := StrictClause(cols[0], values[0]);
    if |cols| == 1 then strict
    else
      var eq := Clause(cols[0].Column(), Operator.Eq, values[0], None);
      Composite([], [strict, Composite([eq, SeekFrom(cols[1..], values[1..])], [])])
  }

  /** The columns a seek may use: plain, named, and NOT NULL in the row. */
  ghost predicate Seekable(cols: seq<KeysetColumn>, row: Row) {
    forall i | 0 <= i < |cols| :: cols[i].Base? && cols[i].column != "" && cols[i].column in row
  }

  /** The seek selects exactly the rows strictly after the cursor in the order of the ORDER BY. */
  lemma {:induction false} SeekIsStrictlyAfter(db: Db, cols: seq<KeysetColumn>, values: seq<Value>, row: Row)
    requires Ordered(db) && |values| == |cols| > 0 && Seekable(cols, row)
    ensures Holds(RowSemantics(db), SeekFilter(cols, values), row) <==> AfterCursor(db, cols, values, row)
  {
    var sem := RowSemantics(db);
    var strict := StrictClause(cols[0], values[0]);
    assert Holds(sem, strict, row) == Compare(db, row, cols[0].column, strict.op, values[0]);
    if |cols| > 1 {
      SeekIsStrictlyAfter(db, cols[1..], values[1..], row);
      var rest := SeekFrom(cols[1..], values[1..]);
      var eq := Clause(cols[0].Column(), Operator.Eq, values[0], None);
      var tail := Composite([eq, rest], []);
      assert Holds(sem, tail, row) == (Holds(sem, [eq, rest][0], row) && Holds(sem, [eq, rest][1], row));
      var subs := [strict, tail];
      assert Holds(sem, Composite([], subs), row) == (Holds(sem, subs[0], row) || Holds(sem, subs[1], row));
    }
  }

  /** A NULL sort column is why the documentation insists on NOT NULL: such a row is never seen by a seek. */
  lemma NullColumnIsSkipped(db: Db, cols: seq<KeysetColumn>, values: seq<Value>, row: Row)
    requires |values| == |cols| > 0 && cols[0].Base? && cols[0].column != "" && cols[0].column !in row
    ensures !Holds(RowSemantics(db), SeekFilter(cols, values), row)
  {
    var sem := RowSemantics(db);
    var strict := StrictClause(cols[0], values[0]);
    assert !Holds(sem, strict, row);
    if |cols| > 1 {
      var eq := Clause(cols[0].Column(), Operator.Eq, values[0], None);
      var tail := Composite([eq, SeekFrom(cols[1..], values[1..])], []);
      assert !Holds(sem, tail, row) by { assert !Holds(sem, tail.all[0], row); }
    }
  }
}

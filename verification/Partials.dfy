/** Mergeable summaries of observations, and folds of them in any order. */
module Partials {
  import opened Wrappers

  /** A measured value as it arrives: NaN and the infinities are not finite. */
  datatype Observation = Finite(value: real) | NotFinite

  /** Sum, count, least and greatest observation, and the quantile sketch (None while empty). The sketch is kept as the
      multiset of what was added to it; its bins are a function of that multiset. */
  datatype Partial = Partial(sum: real, count: int, min: real, max: real, sketch: Option<multiset<real>>)

  const EMPTY := Partial(0.0, 0, 0.0, 0.0, None)

  /** Every partial the store holds: a count, and nothing else set while it is zero. */
  predicate Canonical(p: Partial) {
    p.count >= 0 && (p.count == 0 ==> p == EMPTY)
  }

  type Summary = p: Partial | Canonical(p) witness EMPTY

  function NewPartial(o: Observation): Option<Summary> {
    match o
    case Finite(v) => Some(Partial(v, 1, v, v, Some(multiset{v})))
    case NotFinite => None
  }

  function Least(a: real, b: real): real { if b < a then b else a }
  function Greatest(a: real, b: real): real { if b > a then b else a }

  function MergeSketch(a: Option<multiset<real>>, b: Option<multiset<real>>): Option<multiset<real>> {
    if b.None? then a else if a.None? then b else Some(a.value + b.value)
  }

  function Merge(p: Summary, o: Summary): Summary {
    if o.count == 0 then p
    else if p.count == 0 then o
    else Partial(p.sum + o.sum, p.count + o.count, Least(p.min, o.min), Greatest(p.max, o.max),
                 MergeSketch(p.sketch, o.sketch))
  }

  // ---------- what a summary summarizes ----------

  function Sum(obs: seq<real>): real {
    if obs == [] then 0.0 else Sum(obs[..|obs| - 1]) + obs[|obs| - 1]
  }

  /** `p` is the summary of exactly the observations `obs`. */
  ghost predicate Describes(p: Partial, obs: seq<real>) {
    && p.count == |obs| && p.sum == Sum(obs)
    && (obs == [] ==> p == EMPTY)
    && (obs != [] ==>
          && p.min in obs && (forall x | x in obs :: p.min <= x)
          && p.max in obs && (forall x | x in obs :: x <= p.max)
          && p.sketch == Some(multiset(obs)))
  }

  lemma {:induction false} SumConcat(a: seq<real>, b: seq<real>)
    ensures Sum(a + b) == Sum(a) + Sum(b)
  {
    if b == [] {
      assert a + b == a;
    } else {
      assert (a + b)[..|a + b| - 1] == a + b[..|b| - 1];
      SumConcat(a, b[..|b| - 1]);
    }
  }

  /** Merging summaries summarizes the observations of both. */
  lemma MergeDescribes(p: Summary, o: Summary, a: seq<real>, b: seq<real>)
    requires Describes(p, a) && Describes(o, b)
    ensures Describes(Merge(p, o), a + b)
  {
    SumConcat(a, b);
    if b == [] {
      assert a + b == a;
    } else if a == [] {
      assert a + b == b;
    } else {
      assert p.min in a + b && o.min in a + b && p.max in a + b && o.max in a + b;
      assert multiset(a + b) == multiset(a) + multiset(b);
    }
  }

  datatype Aggregate =
    | AggNone | AggSum | AggAvg | AggMin | AggMax | AggCount | AggCountDistinct | AggP50 | AggP95 | AggP99

  /** The aggregate of a partial, None for NaN. `quantile` reads a sketch. */
  function Finalize(p: Partial, agg: Aggregate, quantile: (multiset<real>, real) -> real): Option<real> {
    match agg
    case AggSum => Some(p.sum)
    case AggCount => Some(p.count as real)
    case AggNone => None
    case AggCountDistinct => None
    case AggAvg => if p.count == 0 then None else Some(p.sum / p.count as real)
    case AggMin => if p.count == 0 then None else Some(p.min)
    case AggMax => if p.count == 0 then None else Some(p.max)
    case AggP50 => Quantile(p, 0.5, quantile)
    case AggP95 => Quantile(p, 0.95, quantile)
    case AggP99 => Quantile(p, 0.99, quantile)
  }

  function Quantile(p: Partial, q: real, quantile: (multiset<real>, real) -> real): Option<real> {
    if p.count == 0 || p.sketch.None? then None else Some(quantile(p.sketch.value, q))
  }

  /** Every aggregate of `p` is that of `obs`; without observations only their sum and count are numbers. */
  ghost predicate FinalizesTo(p: Partial, obs: seq<real>, quantile: (multiset<real>, real) -> real) {
    && Finalize(p, AggSum, quantile) == Some(Sum(obs))
    && Finalize(p, AggCount, quantile) == Some(|obs| as real)
    && (obs == [] ==> forall a: Aggregate | !a.AggSum? && !a.AggCount? :: Finalize(p, a, quantile) == None)
    && (obs != [] ==>
          && Finalize(p, AggAvg, quantile) == Some(Sum(obs) / |obs| as real)
          && (exists x :: Finalize(p, AggMin, quantile) == Some(x) && x in obs && forall y | y in obs :: x <= y)
          && (exists x :: Finalize(p, AggMax, quantile) == Some(x) && x in obs && forall y | y in obs :: y <= x)
          && Finalize(p, AggP50, quantile) == Some(quantile(multiset(obs), 0.5))
          && Finalize(p, AggP95, quantile) == Some(quantile(multiset(obs), 0.95))
          && Finalize(p, AggP99, quantile) == Some(quantile(multiset(obs), 0.99)))
  }

  /** Finalizing a summary gives the aggregates of the observations it summarizes. */
  lemma FinalizeAggregates(p: Summary, obs: seq<real>, quantile: (multiset<real>, real) -> real)
    requires Describes(p, obs)
    ensures FinalizesTo(p, obs, quantile)
  {
    if obs != [] {
      assert Finalize(p, AggMin, quantile) == Some(p.min) && Finalize(p, AggMax, quantile) == Some(p.max);
    }
  }

  // ---------- merging is a commutative monoid ----------

  lemma SketchLaws(a: Option<multiset<real>>, b: Option<multiset<real>>, c: Option<multiset<real>>)
    ensures MergeSketch(a, b) == MergeSketch(b, a)
    ensures MergeSketch(MergeSketch(a, b), c) == MergeSketch(a, MergeSketch(b, c))
  {
    if a.Some? && b.Some? {
      assert a.value + b.value == b.value + a.value;
      if c.Some? {
        assert (a.value + b.value) + c.value == a.value + (b.value + c.value);
      }
    }
  }

  lemma MergeLaws(a: Summary, b: Summary, c: Summary)
    ensures Merge(a, b) == Merge(b, a)
    ensures Merge(Merge(a, b), c) == Merge(a, Merge(b, c))
    ensures Merge(a, EMPTY) == a == Merge(EMPTY, a)
  {
    SketchLaws(a.sketch, b.sketch, c.sketch);
  }

  /** One row's partials, by measure name. */
  type Partials = map<string, Summary>

  function MergeRow(a: Partials, b: Partials): Partials {
    map n | n in a.Keys + b.Keys ::
      if n !in b then a[n] else if n !in a then b[n] else Merge(a[n], b[n])
  }

  lemma MergeRowCommutes(a: Partials, b: Partials)
    ensures MergeRow(a, b) == MergeRow(b, a)
  {
    forall n | n in a && n in b ensures Merge(a[n], b[n]) == Merge(b[n], a[n]) { MergeLaws(a[n], b[n], EMPTY); }
  }

  lemma MergeRowUnit(a: Partials)
    ensures MergeRow(a, map[]) == a == MergeRow(map[], a)
  {
  }

  lemma MergeRowAssociates(a: Partials, b: Partials, c: Partials)
    ensures MergeRow(MergeRow(a, b), c) == MergeRow(a, MergeRow(b, c))
  {
    hide Merge;
    var l, r := MergeRow(MergeRow(a, b), c), MergeRow(a, MergeRow(b, c));
    assert l.Keys == r.Keys;
    forall n | n in l ensures l[n] == r[n] {
      if n in a && n in b && n in c {
        MergeLaws(a[n], b[n], c[n]);
      }
    }
  }

  lemma MergeRowSwap(a: Partials, b: Partials, c: Partials)
    ensures MergeRow(a, MergeRow(b, c)) == MergeRow(b, MergeRow(a, c))
  {
    MergeRowAssociates(a, b, c);
    MergeRowAssociates(b, a, c);
    MergeRowCommutes(a, b);
  }

  // ---------- folding rows, in whatever order ----------

  ghost function Pick<K>(s: set<K>): (k: K)
    requires s != {}
    ensures k in s
  {
    var k :| k in s;
    k
  }

  /** All rows merged into one. The order is immaterial: see FoldRemove. */
  ghost function Fold<K>(rows: map<K, Partials>): Partials
    decreases |rows|
  {
    if rows == map[] then map[]
    else
      var k := Pick(rows.Keys);
      assert (rows - {k}).Keys == rows.Keys - {k};
      MergeRow(rows[k], Fold(rows - {k}))
  }

  /** Any row may be merged last. */
  lemma {:induction false} FoldRemove<K>(rows: map<K, Partials>, k: K)
    requires k in rows
    ensures Fold(rows) == MergeRow(rows[k], Fold(rows - {k}))
    decreases |rows|
  {
    hide MergeRow;
    var j := Pick(rows.Keys);
    if j != k {
      assert (rows - {j}).Keys == rows.Keys - {j};
      assert (rows - {k}).Keys == rows.Keys - {k};
      FoldRemove(rows - {j}, k);
      FoldRemove(rows - {k}, j);
      assert rows - {j} - {k} == rows - {k} - {j};
      MergeRowSwap(rows[j], rows[k], Fold(rows - {j} - {k}));
    }
  }

  lemma FoldAdd<K>(rows: map<K, Partials>, k: K, m: Partials)
    requires k !in rows
    ensures Fold(rows[k := m]) == MergeRow(m, Fold(rows))
  {
    FoldRemove(rows[k := m], k);
    assert rows[k := m] - {k} == rows;
  }

  lemma FoldEmpty<K>(rows: map<K, Partials>)
    requires rows.Keys == {}
    ensures Fold(rows) == map[]
  {
    assert rows == map[];
  }

  lemma {:induction false} FoldUnion<K>(a: map<K, Partials>, b: map<K, Partials>)
    requires a.Keys !! b.Keys
    ensures Fold(a + b) == MergeRow(Fold(a), Fold(b))
    decreases |a.Keys|
  {
    hide MergeRow;
    hide Fold;
    hide Canonical;
    if a.Keys == {} {
      assert a + b == b;
      FoldEmpty(a);
      MergeRowUnit(Fold(b));
    } else {
      var k := Pick(a.Keys);
      var rest := a - {k};
      FoldUnion(rest, b);
      FoldRemove(a, k);
      UnionStep(a, b, k);
      FoldAdd(rest + b, k, a[k]);
      MergeRowAssociates(a[k], Fold(rest), Fold(b));
    }
  }

  lemma UnionStep<K, V>(a: map<K, V>, b: map<K, V>, k: K)
    requires a.Keys !! b.Keys && k in a
    ensures a + b == ((a - {k}) + b)[k := a[k]]
    ensures (a - {k}).Keys == a.Keys - {k}
  {
  }

  /** Merging the rows of a list, first to last, starting from `base`. */
  function MergeAll(base: Partials, rows: seq<Partials>): Partials {
    if rows == [] then base else MergeRow(MergeAll(base, rows[..|rows| - 1]), rows[|rows| - 1])
  }

  lemma {:induction false} MergeAllConcat(base: Partials, a: seq<Partials>, b: seq<Partials>)
    ensures MergeAll(base, a + b) == MergeAll(MergeAll(base, a), b)
  {
    if b == [] {
      assert a + b == a;
    } else {
      assert (a + b)[..|a + b| - 1] == a + b[..|b| - 1];
      MergeAllConcat(base, a, b[..|b| - 1]);
    }
  }

  /** A list of the rows of a map, each key once, merges to the fold of the map. */
  lemma {:induction false} MergeAllIsFold<K>(base: Partials, rows: map<K, Partials>, keys: seq<K>, list: seq<Partials>)
    requires |keys| == |list| && rows.Keys == set k | k in keys
    requires forall i, j | 0 <= i < j < |keys| :: keys[i] != keys[j]
    requires forall i | 0 <= i < |keys| :: rows[keys[i]] == list[i]
    ensures MergeAll(base, list) == MergeRow(base, Fold(rows))
    decreases |keys|
  {
    hide MergeRow;
    if keys == [] {
      assert rows == map[];
      MergeRowUnit(base);
    } else {
      var n := |keys| - 1;
      var k := keys[n];
      var fewer := rows - {k};
      assert fewer.Keys == set x | x in keys[..n];
      MergeAllIsFold(base, fewer, keys[..n], list[..n]);
      FoldRemove(rows, k);
      MergeRowAssociates(base, Fold(fewer), rows[k]);
      MergeRowCommutes(Fold(fewer), rows[k]);
    }
  }

  /** The merging loop of the store: decoded partials accumulate by name, an absent name starting from the empty one. */
  method MergePartials(base: Partials, rows: seq<Partials>) returns (acc: Partials)
    ensures acc == MergeAll(base, rows)
  {
    acc := AddRow(map[], base);
    MergeRowUnit(base);
    for i := 0 to |rows|
      invariant acc == MergeAll(base, rows[..i])
    {
      acc := AddRow(acc, rows[i]);
      assert rows[..i + 1][..i] == rows[..i];
    }
    assert rows[..|rows|] == rows;
  }

  method AddRow(acc: Partials, row: Partials) returns (out: Partials)
    ensures out == MergeRow(acc, row)
  {
    hide Merge;
    out := acc;
    var done: set<string> := {};
    while exists n :: n in row.Keys && n !in done
      invariant done <= row.Keys
      invariant out == MergeRow(acc, Only(row, done))
      decreases row.Keys - done
    {
      var n :| n in row.Keys && n !in done;
      var cur := if n in out then out[n] else EMPTY;
      AddName(acc, row, done, n);
      out := out[n := Merge(cur, row[n])];
      done := done + {n};
    }
    assert Only(row, done) == row;
  }

  function Only(row: Partials, names: set<string>): Partials {
    map n | n in row && n in names :: row[n]
  }

  lemma AddName(acc: Partials, row: Partials, done: set<string>, n: string)
    requires n in row && n !in done
    ensures var out := MergeRow(acc, Only(row, done));
            MergeRow(acc, Only(row, done + {n})) == out[n := Merge(if n in out then out[n] else EMPTY, row[n])]
  {
    hide Merge;
    MergeLaws(row[n], EMPTY, EMPTY);
    var l := MergeRow(acc, Only(row, done + {n}));
    var out := MergeRow(acc, Only(row, done));
    assert l.Keys == out.Keys + {n};
  }
}

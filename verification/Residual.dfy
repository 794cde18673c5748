/** The in-process filter of the analytics store, and the time bounds pushed down from it. */
module Residual {
  import opened Wrappers
  import opened Arithmetic
  import opened Filters
  import opened Calendar
  import C = Compaction
  import opened StringOrder

  const TIME_FIELD := "ts"

  type Dims = C.Dims

  /** One stored row as the filter sees it. */
  datatype Stored = Stored(ts: int, dims: Dims)

  type Predicate = Stored -> bool

  /** How values are printed and lower-cased. */
  datatype Texts = Texts(show: Value -> string, lower: string -> string)

  predicate Contains(s: string, sub: string) {
    exists i | 0 <= i <= |s| :: sub <= s[i..]
  }

  predicate CompareString(tx: Texts, got: string, op: Operator, v: Value) {
    match op
    case Eq => got == tx.show(v)
    case Ne => got != tx.show(v)
    case In => Listed(tx, got, v)
    case NotIn => !Listed(tx, got, v)
    case Like => Contains(tx.lower(got), tx.lower(tx.show(v)))
    case Gt => StrLt(tx.show(v), got)
    case Gte => got == tx.show(v) || StrLt(tx.show(v), got)
    case Lt => StrLt(got, tx.show(v))
    case Lte => got == tx.show(v) || StrLt(got, tx.show(v))
  }

  predicate Listed(tx: Texts, got: string, v: Value) {
    v.List? && exists i | 0 <= i < |v.items| :: got == tx.show(v.items[i])
  }

  predicate CompareTime(got: int, op: Operator, v: Value) {
    v.Time? &&
    match op
    case Eq => got == v.nanos
    case Ne => got != v.nanos
    case Gt => got > v.nanos
    case Gte => got >= v.nanos
    case Lt => got < v.nanos
    case Lte => got <= v.nanos
    case _ => false
  }

  predicate ClauseMatches(tx: Texts, col: string, op: Operator, v: Value, r: Stored) {
    if col == TIME_FIELD then CompareTime(r.ts, op, v)
    else col in r.dims && CompareString(tx, r.dims[col], op, v)
  }

  function StoredSemantics(tx: Texts): Semantics<Stored> {
    Semantics((col, op, v, r) => ClauseMatches(tx, col, op, v, r), (j, op, v, r) => false)
  }

  /** The backend: predicates are closures over stored rows. */
  function ResidualBackend(tx: Texts): Backend<Predicate> {
    Backend(
      (col, op, v) => (r => ClauseMatches(tx, col, op, v, r)),
      (j, op, v) => (r => false),
      (subs: seq<Predicate>) => (r => forall i | 0 <= i < |subs| :: subs[i](r)),
      (subs: seq<Predicate>) => (r => exists i | 0 <= i < |subs| :: subs[i](r)),
      r => true)
  }

  function CompileResidual(tx: Texts, f: Filter): Predicate {
    Compile(ResidualBackend(tx), IdentityColumn, f)
  }

  /** The compiled predicate is the filter's meaning: an instance of the law for all backends. */
  lemma ResidualIsExact(tx: Texts, f: Filter, r: Stored)
    ensures CompileResidual(tx, f)(r) == Holds(StoredSemantics(tx), f, r)
  {
    var den: (Predicate, Stored) -> bool := (q: Predicate, s: Stored) => q(s);
    CompilePreservesMeaning(ResidualBackend(tx), StoredSemantics(tx), den, f, r);
  }

  // ---------- pushdown ----------

  function DownToMilli(t: int): int { t - t % MILLI }

  /** What one top-level clause does to the bounds. */
  function Narrow(c: Filter, lo: int, hi: int): (int, int) {
    if !c.Clause? || c.field != TIME_FIELD || !c.value.Time? then (lo, hi)
    else
      var down := DownToMilli(c.value.nanos);
      var up := down + MILLI;
      match c.op
      case Gt => (if down > lo then down else lo, hi)
      case Gte => (if down > lo then down else lo, hi)
      case Lt => (lo, if up < hi then up else hi)
      case Lte => (lo, if up < hi then up else hi)
      case Eq => (if down > lo then down else lo, if up < hi then up else hi)
      case _ => (lo, hi)
  }

  function NarrowAll(cs: seq<Filter>, lo: int, hi: int): (int, int) {
    if cs == [] then (lo, hi)
    else
      var (l, h) := NarrowAll(cs[..|cs| - 1], lo, hi);
      Narrow(cs[|cs| - 1], l, h)
  }

  /** The clauses that bound the range: a lone clause, or the members of the AND arm. */
  function TopClauses(f: Filter): seq<Filter> {
    match f
    case NoFilter => []
    case Clause(_, _, _, _) => [f]
    case Composite(all, _) => all
  }

  method Pushdown(f: Filter, lo: int, hi: int) returns (from: int, to: int)
    ensures (from, to) == NarrowAll(TopClauses(f), lo, hi)
  {
    from, to := lo, hi;
    var clauses := TopClauses(f);
    for i := 0 to |clauses|
      invariant (from, to) == NarrowAll(clauses[..i], lo, hi)
    {
      assert clauses[..i + 1][..i] == clauses[..i];
      var c := clauses[i];
      if c.Clause? && c.field == TIME_FIELD && c.value.Time? {
        var down := DownToMilli(c.value.nanos);
        if c.op == Gt || c.op == Gte || c.op == Eq {
          from := if down > from then down else from;
        }
        if c.op == Lt || c.op == Lte || c.op == Eq {
          to := if down + MILLI < to then down + MILLI else to;
        }
      }
    }
    assert clauses[..|clauses|] == clauses;
  }

  lemma {:induction false} NarrowAllKeeps(tx: Texts, cs: seq<Filter>, lo: int, hi: int, r: Stored)
    requires lo <= r.ts < hi && forall i | 0 <= i < |cs| :: Holds(StoredSemantics(tx), cs[i], r)
    ensures NarrowAll(cs, lo, hi).0 <= r.ts < NarrowAll(cs, lo, hi).1
  {
    if cs != [] {
      NarrowAllKeeps(tx, cs[..|cs| - 1], lo, hi, r);
      var c := cs[|cs| - 1];
      assert Holds(StoredSemantics(tx), c, r);
      if c.Clause? && c.field == TIME_FIELD && c.join.None? {
        assert CompareTime(r.ts, c.op, c.value);
      }
    }
  }

  /** Pushing bounds down never changes an answer: every row in range that passes the filter is inside them. */
  lemma PushdownLosesNothing(tx: Texts, f: Filter, lo: int, hi: int, r: Stored)
    requires lo <= r.ts < hi && Holds(StoredSemantics(tx), f, r)
    ensures NarrowAll(TopClauses(f), lo, hi).0 <= r.ts < NarrowAll(TopClauses(f), lo, hi).1
  {
    var cs := TopClauses(f);
    forall i | 0 <= i < |cs| ensures Holds(StoredSemantics(tx), cs[i], r) {
      if f.Composite? {
        assert |f.all| > 0;
      }
    }
    NarrowAllKeeps(tx, cs, lo, hi, r);
  }

  predicate BoundsBelow(c: Filter) {
    c.Clause? && c.field == TIME_FIELD && c.value.Time? && (c.op == Gt || c.op == Gte || c.op == Eq)
  }

  predicate BoundsAbove(c: Filter) {
    c.Clause? && c.field == TIME_FIELD && c.value.Time? && (c.op == Lt || c.op == Lte || c.op == Eq)
  }

  /** The bounds are as tight as whole milliseconds allow, and never wider than the query's range. */
  lemma {:induction false} PushdownIsTight(cs: seq<Filter>, lo: int, hi: int, i: nat)
    requires i < |cs|
    ensures var (l, h) := NarrowAll(cs, lo, hi);
            && lo <= l && h <= hi
            && (BoundsBelow(cs[i]) ==> l > cs[i].value.nanos - MILLI)
            && (BoundsAbove(cs[i]) ==> h <= cs[i].value.nanos + MILLI)
  {
    var n := |cs| - 1;
    NarrowOnlyNarrows(cs[n], NarrowAll(cs[..n], lo, hi).0, NarrowAll(cs[..n], lo, hi).1);
    if n == 0 {
      assert cs[..n] == [];
    } else {
      PushdownIsTight(cs[..n], lo, hi, if i < n then i else 0);
    }
  }

  lemma NarrowOnlyNarrows(c: Filter, lo: int, hi: int)
    ensures lo <= Narrow(c, lo, hi).0 && Narrow(c, lo, hi).1 <= hi
    ensures BoundsBelow(c) ==> Narrow(c, lo, hi).0 > c.value.nanos - MILLI
    ensures BoundsAbove(c) ==> Narrow(c, lo, hi).1 <= c.value.nanos + MILLI
  {
  }

  // ---------- buckets ----------

  /** The buckets a read visits: every aligned start from the one holding `lo` up to `hi`, in order. */
  method EnumerateBuckets(lo: int, hi: int, width: Grain) returns (buckets: seq<int>)
    requires ValidGrain(width)
    ensures forall i, j | 0 <= i < j < |buckets| :: buckets[i] < buckets[j]
    ensures forall b :: b in buckets <==> Aligned(b, width) && Truncate(lo, width) <= b < hi
  {
    hide Truncate;
    hide Next;
    buckets := [];
    var b := Truncate(lo, width);
    TruncateIsAligned(lo, width);
    while b < hi
      invariant Aligned(b, width) && Truncate(lo, width) <= b
      invariant forall i, j | 0 <= i < j < |buckets| :: buckets[i] < buckets[j]
      invariant forall x :: x in buckets <==> Aligned(x, width) && Truncate(lo, width) <= x < b && x < hi
      decreases hi - b
    {
      NextIsAligned(b, width);
      var n := Next(b, width);
      forall x | Aligned(x, width) && b <= x < n ensures x == b {
        TruncateIsTheStart(b, x, width);
      }
      forall i | 0 <= i < |buckets| ensures buckets[i] < b {
        assert buckets[i] in buckets;
      }
      buckets := buckets + [b];
      b := n;
    }
  }

  /** Every time in range lies in an enumerated bucket. */
  lemma BucketsCover(lo: int, hi: int, width: Grain, t: int)
    requires ValidGrain(width) && lo <= t < hi
    ensures Aligned(Truncate(t, width), width) && Truncate(lo, width) <= Truncate(t, width) < hi
  {
    hide Truncate;
    TruncateIsAligned(t, width);
    TruncateMonotone(lo, t, width);
    TruncateBounds(t, width);
  }

  /** A row's bucket can be told from its grain-aligned time exactly when the bucket width is at least as coarse as the
      grain; otherwise a fact is filed in a bucket its own time does not name. */
  lemma WidthMustBeCoarse(g: Grain, w: Grain)
    requires ValidGrain(g) && ValidGrain(w)
    ensures (forall t :: Truncate(Truncate(t, g), w) == Truncate(t, w)) <==> AtLeastAsCoarse(w, g)
  {
    if AtLeastAsCoarse(w, g) {
      forall t ensures Truncate(Truncate(t, g), w) == Truncate(t, w) { TruncateNests(t, g, w); }
    } else {
      FinerWidthSplits(g, w);
    }
  }

  lemma FinerWidthSplits(g: Grain, w: Grain)
    requires ValidGrain(g) && ValidGrain(w) && Rank(w) < Rank(g)
    ensures exists t :: Truncate(Truncate(t, g), w) != Truncate(t, w)
  {
    hide Truncate;
    hide Next;
    var b := Truncate(0, g);
    TruncateIsAligned(0, g);
    SecondPeriod(b, g, w);
    var t := Next(b, w);
    TruncateIsTheStart(b, t, g);
    NextIsAligned(b, w);
  }

  /** An aligned start of a coarse period is one of a finer, whose second period is still inside. */
  lemma SecondPeriod(b: int, g: Grain, w: Grain)
    requires ValidGrain(g) && ValidGrain(w) && Rank(w) < Rank(g) && Aligned(b, g)
    ensures Aligned(b, w) && b < Next(b, w) < Next(b, g)
  {
    hide Truncate;
    hide Next;
    hide FirstOfMonth;
    hide NextFirst;
    if g.Month? {
      MonthStep(b);
      DaySplit(FirstOfMonth(DayOf(b)), 0);
      MonthHasTwoDays(DayOf(b));
      MonthFirstIsFirst(DayOf(b));
      DayIsWhole(DayOf(b));
    } else {
      FixedTruncate(b, g);
      FixedNext(b, g);
      if g.Day? {
        DayIsWhole(b / DAY);
      } else {
        HourIsWhole(b);
      }
    }
    WholeIsAligned(b, w);
  }

  lemma WholeIsAligned(b: int, w: Grain)
    requires (w.Minute? || w.Hour? || w.Day?) && b % Unit(w) == 0
    ensures Aligned(b, w) && Next(b, w) == b + Unit(w)
  {
    hide Truncate;
    hide Next;
    UnitStep(b, Unit(w));
    FixedTruncate(b, w);
    FixedNext(b, w);
  }

  lemma MonthHasTwoDays(day: int)
    ensures FirstOfMonth(day) + 2 <= NextFirst(day)
  {
    hide YearStart;
    hide IsLeap;
    hide DateOf;
    hide DayNumber;
    var d := DateOf(day);
    DayNumberPlain(d.year, d.month, 0);
  }

  lemma DayIsWhole(d: int)
    ensures (d * DAY) % DAY == 0 && (d * DAY) % HOUR == 0 && (d * DAY) % MINUTE == 0
  {
    DivModUnique(d * DAY, DAY, d, 0);
    DivModUnique(d * DAY, HOUR, d * 24, 0);
    DivModUnique(d * DAY, MINUTE, d * 1440, 0);
  }

  lemma HourIsWhole(b: int)
    requires b == b / HOUR * HOUR
    ensures b % MINUTE == 0
  {
    DivModUnique(b, MINUTE, (b / HOUR) * 60, 0);
  }
}

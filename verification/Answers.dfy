/** What the numbers of an answer mean, and exactly when they are right. */
module Answers {
  import opened Wrappers
  import opened Filters
  import opened Calendar
  import opened Partials
  import C = Compaction
  import opened Residual
  import opened Analytics

  // ---------- facts left out of an answer ----------

  /** Every measure of every fact carries an observation, as written ones do. */
  ghost predicate Measured<K(!new)>(rows: map<K, Partials>) {
    forall k, n | k in rows && n in rows[k] :: rows[k][n].count >= 1
  }

  /** A fold has exactly the measures of its rows, with their observations. */
  lemma {:induction false} FoldNames<K(!new)>(rows: map<K, Partials>, n: string)
    requires Measured(rows)
    ensures n in Fold(rows) <==> exists k :: k in rows && n in rows[k]
    ensures n in Fold(rows) ==> Fold(rows)[n].count >= 1
    decreases |rows|
  {
    hide Fold;
    if rows == map[] {
      FoldEmpty(rows);
    } else {
      var k := Pick(rows.Keys);
      var rest := rows - {k};
      assert rest.Keys == rows.Keys - {k};
      FoldNames(rest, n);
      FoldRemove(rows, k);
      if j :| j in rows && n in rows[j] {
        assert j == k || j in rest;
      }
    }
  }

  /** Merging in a row changes nothing exactly when it has nothing observed. */
  lemma MergeChanges(a: Partials, m: Partials)
    requires forall n | n in m :: m[n].count >= 1
    ensures MergeRow(a, m) == a <==> m == map[]
  {
    if n :| n in m {
      assert n in MergeRow(a, m);
      if n in a {
        assert MergeRow(a, m)[n].count == a[n].count + m[n].count;
      }
    } else {
      MergeRowUnit(a);
    }
  }

  ghost predicate InAnswer(tx: Texts, q: Query, ts: int, group: Dims, k: C.RowKey) {
    Asked(tx, q, C.GroupOf(k)) && k.ts == ts && Project(q.groupBy, k.dims) == group
  }

  ghost function AnswerFacts(tx: Texts, q: Query, facts: Rows, ts: int, group: Dims): Rows {
    map k | k in facts && InAnswer(tx, q, ts, group, k) :: facts[k]
  }

  lemma BruteForceFolds(tx: Texts, q: Query, facts: Rows, ts: int, group: Dims)
    ensures BruteForce(tx, q, facts, ts, group)
            == ProjectMeasures(q.measures, Fold(AnswerFacts(tx, q, facts, ts, group)))
  {
    assert AnswerFacts(tx, q, facts, ts, group) ==
      map k | k in facts && Asked(tx, q, C.GroupOf(k)) && k.ts == ts && Project(q.groupBy, k.dims) == group :: facts[k];
  }

  /** `kept` is some of `facts`. */
  ghost predicate SomeOf(kept: Rows, facts: Rows) {
    forall k | k in kept :: k in facts && kept[k] == facts[k]
  }

  /** Leaving facts out of an answer leaves it as it is exactly when none of those it asks for has a measure it asks
      for. */
  lemma LeftOutIff(tx: Texts, q: Query, facts: Rows, kept: Rows, ts: int, group: Dims)
    requires SomeOf(kept, facts) && Measured(facts)
    ensures BruteForce(tx, q, kept, ts, group) == BruteForce(tx, q, facts, ts, group) <==>
            forall k, n | k in facts && k !in kept && InAnswer(tx, q, ts, group, k) && n in q.measures :: n !in facts[k]
  {
    hide Fold;
    hide MergeRow;
    hide InAnswer;
    hide ProjectMeasures;
    hide BruteForce;
    var all, some := AnswerFacts(tx, q, facts, ts, group), AnswerFacts(tx, q, kept, ts, group);
    var out: Rows := map k | k in all && k !in some :: all[k];
    assert all == some + out && some.Keys !! out.Keys;
    BruteForceFolds(tx, q, facts, ts, group);
    BruteForceFolds(tx, q, kept, ts, group);
    FoldUnion(some, out);
    ProjectDistributes(q.measures, Fold(some), Fold(out));
    OutMeasures(q, out);
    MergeChanges(ProjectMeasures(q.measures, Fold(some)), ProjectMeasures(q.measures, Fold(out)));
    assert forall k :: k in out <==> k in facts && k !in kept && InAnswer(tx, q, ts, group, k);
  }

  lemma OutMeasures(q: Query, out: Rows)
    requires Measured(out)
    ensures ProjectMeasures(q.measures, Fold(out)) == map[] <==>
              forall k, n | k in out && n in q.measures :: n !in out[k]
    ensures forall n | n in ProjectMeasures(q.measures, Fold(out)) ::
              ProjectMeasures(q.measures, Fold(out))[n].count >= 1
  {
    hide Fold;
    forall n ensures n in Fold(out) <==> exists k :: k in out && n in out[k] { FoldNames(out, n); }
    forall n | n in Fold(out) ensures Fold(out)[n].count >= 1 { FoldNames(out, n); }
    var p := ProjectMeasures(q.measures, Fold(out));
    if k, n :| k in out && n in q.measures && n in out[k] {
      assert n in Fold(out) && n in p;
    } else {
      assert forall n | n in p :: n in Fold(out) && n in q.measures;
      assert p == map[];
    }
  }

  // ---------- the bucket width ----------

  /** One query over what a log of writes left: its plan, the buckets it visits, and the rows it delivers. */
  ghost predicate Reading(cfg: Config, tx: Texts, log: seq<Job>, p: Plan, buckets: seq<int>, parts: seq<Rows>,
                          scans: seq<seq<C.RowKey>>, got: seq<ResultRow>)
    requires ConfigOk(cfg)
  {
    && PlanFor(cfg, p.q) == Ok(p) && (forall i | 0 <= i < |log| :: JobOk(cfg, log[i]))
    && AsWritten(cfg, log, p, buckets, parts) && |scans| == |parts|
    && (forall i, j | 0 <= i < j < |buckets| :: buckets[i] < buckets[j])
    && (forall b :: b in buckets <==> Aligned(b, p.width) && Truncate(p.lo, p.width) <= b < p.hi)
    && (forall i | 0 <= i < |parts| :: Scans(scans[i], parts[i]))
    && multiset(got) == multiset(ReadAll(tx, p, parts, scans))
  }

  /** Every query on the cube at the grain answers as one pass over the distinct facts, whatever was written. */
  ghost predicate AlwaysAnswers(cfg: Config, tx: Texts, cube: string, g: Grain)
    requires ConfigOk(cfg)
  {
    forall log, p: Plan, buckets, parts, scans, got, ts, group
      | p.q.cube == cube && p.grain == g && Reading(cfg, tx, log, p, buckets, parts, scans, got) ::
      MergeAll(map[], Of(got, ts, group)) == BruteForce(tx, p.q, Written(log, p.q.org, cube, g), ts, group)
  }

  /** Queries are answered exactly when the bucket width is at least as coarse as the grain. */
  lemma AnswersIffCoarse(cfg: Config, tx: Texts, cube: string, g: Grain)
    requires ConfigOk(cfg) && cube in cfg.cubes && g in cfg.cubes[cube]
    ensures g in cfg.bucketWidth
    ensures AlwaysAnswers(cfg, tx, cube, g) <==> AtLeastAsCoarse(cfg.bucketWidth[g], g)
  {
    hide Truncate;
    hide ReadAll;
    hide BruteForce;
    hide Of;
    DeclaredGrain(cfg, cube, g);
    if AtLeastAsCoarse(cfg.bucketWidth[g], g) {
      forall log, p: Plan, buckets, parts, scans, got, ts, group
        | p.q.cube == cube && p.grain == g && Reading(cfg, tx, log, p, buckets, parts, scans, got)
        ensures MergeAll(map[], Of(got, ts, group)) == BruteForce(tx, p.q, Written(log, p.q.org, cube, g), ts, group)
      {
        PlanWidth(cfg, p);
        WrittenFactsAreAnswered(cfg, tx, log, p, buckets, parts, scans, got, ts, group);
      }
    } else {
      FactIsNotFound(cfg, tx, cube, g);
    }
  }

  function OneMeasure(): map<string, Observation> { map["n" := Finite(1.0)] }

  /** A fact in the second bucket of a grain period: its row stands at the start of the period, in the first. */
  function LateFact(cube: string, t: int): Fact {
    Fact(t, map[], OneMeasure(), cube, "o", "k", 0)
  }

  function FirstBucketQuery(cube: string, g: Grain, b: int, t: int): Query {
    Query(NoFilter, cube, "o", Some(g), [], ["n"], b, t)
  }

  lemma PeriodAfterZero(g: Grain, w: Grain) returns (b: int, t: int)
    requires ValidGrain(g) && ValidGrain(w) && Rank(w) < Rank(g)
    ensures 0 < b < t && t == Next(b, w) && Aligned(b, w) && Aligned(t, w) && Truncate(t, g) == b
  {
    hide Truncate;
    hide Next;
    TruncateIsAligned(0, g);
    TruncateBounds(0, g);
    NextIsAligned(Truncate(0, g), g);
    b := Next(Truncate(0, g), g);
    SecondPeriod(b, g, w);
    t := Next(b, w);
    NextIsAligned(b, w);
    TruncateIsTheStart(b, t, g);
  }

  /** The written fact is in the query's range and the query does not find it. */
  lemma FactIsNotFound(cfg: Config, tx: Texts, cube: string, g: Grain)
    requires ConfigOk(cfg) && cube in cfg.cubes && g in cfg.cubes[cube]
    requires g in cfg.bucketWidth && ValidGrain(g) && ValidGrain(cfg.bucketWidth[g])
    requires Rank(cfg.bucketWidth[g]) < Rank(g)
    ensures !AlwaysAnswers(cfg, tx, cube, g)
  {
    hide Truncate;
    hide Next;
    hide InsertAll;
    hide ReadAll;
    hide BruteForce;
    hide PlanFor;
    hide Written;
    hide JobOk;
    hide FactPartials;
    var w := cfg.bucketWidth[g];
    var b, t := PeriodAfterZero(g, w);
    var f, q := LateFact(cube, t), FirstBucketQuery(cube, g, b, t);
    var log, p := [Job(f, g, FactPartials(f.measures))], Plan(g, w, b, t, q);
    var parts := [Partition(InsertAll(cfg, map[], log), PartKey("o", cube, g, b))];
    OneBucket(b, w);
    PlanOfQuery(cfg, cube, g, b, t);
    NothingFiled(cfg, log[0], g, b);
    var scans: seq<seq<C.RowKey>>, got: seq<ResultRow> := [[]], [];
    assert Scans(scans[0], parts[0]);
    NoRows(tx, p, parts, scans);
    LateJobOk(cfg, cube, g, t);
    assert Reading(cfg, tx, log, p, [b], parts, scans, got);
    AskedFor(tx, cube, g, b, t, log);
    assert Of(got, b, map[]) == [];
    assert MergeAll(map[], Of(got, b, map[])) == map[];
  }

  lemma LateJobOk(cfg: Config, cube: string, g: Grain, t: int)
    requires cube in cfg.cubes && g in cfg.cubes[cube] && g in cfg.bucketWidth
    ensures JobOk(cfg, Job(LateFact(cube, t), g, FactPartials(OneMeasure())))
  {
  }

  /** The only bucket of its own period. */
  lemma OneBucket(b: int, w: Grain)
    requires ValidGrain(w) && Aligned(b, w)
    ensures forall x :: x in [b] <==> Aligned(x, w) && Truncate(b, w) <= x < Next(b, w)
  {
    hide Truncate;
    hide Next;
    NextIsAligned(b, w);
    forall x | Aligned(x, w) && b <= x < Next(b, w) ensures x == b { TruncateIsTheStart(b, x, w); }
  }

  lemma PlanOfQuery(cfg: Config, cube: string, g: Grain, b: int, t: int)
    requires ConfigOk(cfg) && cube in cfg.cubes && g in cfg.cubes[cube] && g in cfg.bucketWidth && 0 < b < t
    ensures PlanFor(cfg, FirstBucketQuery(cube, g, b, t))
            == Ok(Plan(g, cfg.bucketWidth[g], b, t, FirstBucketQuery(cube, g, b, t)))
  {
    assert NarrowAll([], b, t) == (b, t);
  }

  lemma NothingFiled(cfg: Config, j: Job, g: Grain, b: int)
    requires j.grain == g && g in cfg.bucketWidth && Truncate(j.fact.ts, cfg.bucketWidth[g]) != b
    ensures Partition(InsertAll(cfg, map[], [j]), PartKey(j.fact.org, j.fact.cube, g, b)) == map[]
  {
    hide Truncate;
    assert [j][..0] == [];
    assert InsertAll(cfg, map[], [j]) == Insert(cfg, InsertAll(cfg, map[], []), j);
  }

  lemma NoRows(tx: Texts, p: Plan, parts: seq<Rows>, scans: seq<seq<C.RowKey>>)
    requires |parts| == 1 && scans == [[]] && Scans(scans[0], parts[0])
    ensures ReadAll(tx, p, parts, scans) == []
  {
    assert parts[..0] == [] && scans[..0] == [];
    assert ReadAll(tx, p, parts[..0], scans[..0]) == [];
  }

  lemma AskedFor(tx: Texts, cube: string, g: Grain, b: int, t: int, log: seq<Job>)
    requires Truncate(t, g) == b < t && log == [Job(LateFact(cube, t), g, FactPartials(OneMeasure()))]
    ensures BruteForce(tx, FirstBucketQuery(cube, g, b, t), Written(log, "o", cube, g), b, map[]) != map[]
  {
    hide Truncate;
    var q, m, k := FirstBucketQuery(cube, g, b, t), FactPartials(OneMeasure()), C.RowKey(b, map[], "k");
    assert log[..0] == [];
    var none: Rows := map[];
    var facts := Written(log, "o", cube, g);
    assert Written(log[..0], "o", cube, g) == map[] && RowKeyOf(log[0].fact, g) == k;
    assert facts == none[k := m];
    assert Project(q.groupBy, k.dims) == map[];
    assert InAnswer(tx, q, b, map[], k);
    assert AnswerFacts(tx, q, facts, b, map[]) == none[k := m];
    BruteForceFolds(tx, q, facts, b, map[]);
    FoldEmpty(none);
    FoldAdd(none, k, m);
    MergeRowUnit(m);
    assert "n" in m && "n" in q.measures;
    assert "n" in ProjectMeasures(q.measures, m);
  }

  // ---------- from written facts to finalized numbers ----------

  type Observations = map<C.RowKey, map<string, Observation>>

  /** The distinct facts of a log with what they measured. */
  function WrittenObservations(log: seq<Job>, org: string, cube: string, g: Grain): Observations {
    if log == [] then map[]
    else
      var j, rest := log[|log| - 1], WrittenObservations(log[..|log| - 1], org, cube, g);
      if j.fact.org == org && j.fact.cube == cube && j.grain == g then rest[RowKeyOf(j.fact, g) := j.fact.measures]
      else rest
  }

  function Summaries(obs: Observations): Rows {
    map k | k in obs :: FactPartials(obs[k])
  }

  ghost predicate AllFacts(obs: Observations) {
    forall k | k in obs :: AllFinite(obs[k])
  }

  lemma {:induction false} WrittenSummaries(cfg: Config, log: seq<Job>, org: string, cube: string, g: Grain)
    requires forall i | 0 <= i < |log| :: JobOk(cfg, log[i])
    ensures Written(log, org, cube, g) == Summaries(WrittenObservations(log, org, cube, g))
    ensures AllFacts(WrittenObservations(log, org, cube, g))
  {
    hide FactPartials;
    hide Truncate;
    if log != [] {
      WrittenSummaries(cfg, log[..|log| - 1], org, cube, g);
      assert JobOk(cfg, log[|log| - 1]);
    }
  }

  /** Written facts carry an observation for each of their measures. */
  lemma SummariesMeasured(obs: Observations)
    requires AllFacts(obs)
    ensures Measured(Summaries(obs))
  {
  }

  /** `keys` lists the facts of an answer group, each once. */
  ghost predicate ListsAnswer(tx: Texts, q: Query, obs: Observations, ts: int, group: Dims, keys: seq<C.RowKey>) {
    && (forall k :: k in keys <==> k in obs && InAnswer(tx, q, ts, group, k))
    && (forall i, j | 0 <= i < j < |keys| :: keys[i] != keys[j])
  }

  /** The summary of a measure in the brute-force answer is that of exactly the matching facts' observations of it. */
  lemma AnswerDescribes(tx: Texts, q: Query, obs: Observations, ts: int, group: Dims, keys: seq<C.RowKey>, n: string)
    requires AllFacts(obs) && ListsAnswer(tx, q, obs, ts, group, keys) && n in q.measures
    ensures var a, xs := BruteForce(tx, q, Summaries(obs), ts, group), Observed(obs, keys, n);
            (n in a <==> xs != []) && (n in a ==> Describes(a[n], xs))
  {
    hide Fold;
    hide InAnswer;
    hide Describes;
    hide BruteForce;
    BruteForceFolds(tx, q, Summaries(obs), ts, group);
    FoldSummarizes(obs, keys, n);
    assert PartialsAt(obs, keys) == AnswerFacts(tx, q, Summaries(obs), ts, group);
  }

  /** `a` has the measure exactly when the facts listed observed it, and then finalizes to the aggregates of what they
      observed. */
  ghost predicate NumbersOf(a: Partials, obs: Observations, keys: seq<C.RowKey>, n: string,
                            quantile: (multiset<real>, real) -> real)
    requires forall k | k in keys :: k in obs && AllFinite(obs[k])
  {
    (n in a <==> Observed(obs, keys, n) != []) && (n in a ==> FinalizesTo(a[n], Observed(obs, keys, n), quantile))
  }

  lemma AnswerNumbers(tx: Texts, q: Query, obs: Observations, ts: int, group: Dims, keys: seq<C.RowKey>, n: string,
                      quantile: (multiset<real>, real) -> real)
    requires AllFacts(obs) && ListsAnswer(tx, q, obs, ts, group, keys) && n in q.measures
    ensures NumbersOf(BruteForce(tx, q, Summaries(obs), ts, group), obs, keys, n, quantile)
  {
    hide BruteForce;
    hide FinalizesTo;
    hide InAnswer;
    hide Describes;
    AnswerDescribes(tx, q, obs, ts, group, keys, n);
    var a := BruteForce(tx, q, Summaries(obs), ts, group);
    if n in a {
      FinalizeAggregates(a[n], Observed(obs, keys, n), quantile);
    }
  }

  /** From writes to numbers: after any log of writes, redeliveries included, a query's count, sum, mean, least and
      greatest value and quantiles of a measure are those of the observations of the distinct facts it asks for. */
  lemma QueryGivesAggregates(cfg: Config, tx: Texts, log: seq<Job>, p: Plan, buckets: seq<int>, parts: seq<Rows>,
                             scans: seq<seq<C.RowKey>>, got: seq<ResultRow>, ts: int, group: Dims, keys: seq<C.RowKey>,
                             n: string, quantile: (multiset<real>, real) -> real)
    requires ConfigOk(cfg) && Reading(cfg, tx, log, p, buckets, parts, scans, got)
    requires AtLeastAsCoarse(p.width, p.grain) && n in p.q.measures
    requires ListsAnswer(tx, p.q, WrittenObservations(log, p.q.org, p.q.cube, p.grain), ts, group, keys)
    ensures AllFacts(WrittenObservations(log, p.q.org, p.q.cube, p.grain))
    ensures NumbersOf(MergeAll(map[], Of(got, ts, group)), WrittenObservations(log, p.q.org, p.q.cube, p.grain),
                      keys, n, quantile)
  {
    hide Truncate;
    hide ReadAll;
    hide BruteForce;
    hide Of;
    hide NumbersOf;
    hide InAnswer;
    WrittenSummaries(cfg, log, p.q.org, p.q.cube, p.grain);
    WrittenFactsAreAnswered(cfg, tx, log, p, buckets, parts, scans, got, ts, group);
    hide Reading;
    AnswerNumbers(tx, p.q, WrittenObservations(log, p.q.org, p.q.cube, p.grain), ts, group, keys, n, quantile);
  }
}

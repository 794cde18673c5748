/** The analytics store from written facts to merged answers. */
module Analytics {
  import opened Arithmetic
  import opened Wrappers
  import opened Filters
  import opened Calendar
  import opened Partials
  import C = Compaction
  import opened Residual

  type Rows = C.Rows

  const FACT_SCHEMA_VERSION := 1

  datatype Fact = Fact(
    ts: int, dims: Dims, measures: map<string, Observation>, cube: string, org: string, idem: string, schema: int)

  datatype Config = Config(cubes: map<string, seq<Grain>>, bucketWidth: map<Grain, Grain>)

  datatype Error = InvalidInput(message: string) | Unavailable(message: string)

  /** A partition: the table of a cube at a grain, and the partition key in it. */
  datatype PartKey = PartKey(org: string, cube: string, grain: Grain, bucket: int)

  type Data = map<PartKey, Rows>

  function Partition(d: Data, p: PartKey): Rows {
    if p in d then d[p] else map[]
  }

  predicate IsIdentifier(name: string) {
    && 1 <= |name| <= 41 && 'a' <= name[0] <= 'z'
    && forall i | 0 < i < |name| :: 'a' <= name[i] <= 'z' || '0' <= name[i] <= '9' || name[i] == '_'
  }

  /** A declared grain is known and has a known bucket width. */
  predicate GrainOk(cfg: Config, g: Grain) {
    g in cfg.bucketWidth && ValidGrain(g) && ValidGrain(cfg.bucketWidth[g])
  }

  predicate CubeOk(cfg: Config, c: string)
    requires c in cfg.cubes
  {
    IsIdentifier(c) && forall i | 0 <= i < |cfg.cubes[c]| :: GrainOk(cfg, cfg.cubes[c][i])
  }

  /** What the store accepts as its configuration. */
  predicate ConfigOk(cfg: Config) {
    forall c | c in cfg.cubes :: CubeOk(cfg, c)
  }

  // ---------- writing ----------

  datatype Job = Job(fact: Fact, grain: Grain, partials: Partials)

  predicate AllFinite(ms: map<string, Observation>) {
    forall n | n in ms :: ms[n].Finite?
  }

  /** One summary per measure of a fact. */
  function FactPartials(ms: map<string, Observation>): Partials {
    map n | n in ms && ms[n].Finite? :: NewPartial(ms[n]).value
  }

  function CheckFact(cfg: Config, f: Fact): Option<Error> {
    if f.cube !in cfg.cubes then Some(InvalidInput("undeclared cube " + f.cube))
    else if f.org == "" || f.idem == "" then Some(InvalidInput("a fact needs an org_id and an idempotency_key"))
    else if f.schema != 0 && f.schema != FACT_SCHEMA_VERSION then Some(InvalidInput("unknown fact schema version"))
    else if !AllFinite(f.measures) then Some(InvalidInput("observation must be finite"))
    else None
  }

  /** The error of the first fact that has one. */
  function CheckFacts(cfg: Config, facts: seq<Fact>): Option<Error> {
    if facts == [] then None
    else if CheckFact(cfg, facts[0]).Some? then CheckFact(cfg, facts[0])
    else CheckFacts(cfg, facts[1..])
  }

  function RowKeyOf(f: Fact, g: Grain): C.RowKey { C.RowKey(Truncate(f.ts, g), f.dims, f.idem) }

  function PartKeyOf(cfg: Config, f: Fact, g: Grain): PartKey
    requires g in cfg.bucketWidth
  {
    PartKey(f.org, f.cube, g, Truncate(f.ts, cfg.bucketWidth[g]))
  }

  /** One upsert. */
  function Insert(cfg: Config, d: Data, j: Job): Data
    requires j.grain in cfg.bucketWidth
  {
    var p := PartKeyOf(cfg, j.fact, j.grain);
    d[p := Partition(d, p)[RowKeyOf(j.fact, j.grain) := j.partials]]
  }

  predicate JobOk(cfg: Config, j: Job) {
    && CheckFact(cfg, j.fact).None?
    && j.grain in cfg.cubes[j.fact.cube] && j.grain in cfg.bucketWidth
    && j.partials == FactPartials(j.fact.measures)
  }

  function InsertAll(cfg: Config, d: Data, jobs: seq<Job>): Data
    requires forall i | 0 <= i < |jobs| :: jobs[i].grain in cfg.bucketWidth
  {
    if jobs == [] then d else Insert(cfg, InsertAll(cfg, d, jobs[..|jobs| - 1]), jobs[|jobs| - 1])
  }

  /** Every fact at every grain of its cube, and nothing else. */
  ghost predicate JobsOf(cfg: Config, facts: seq<Fact>, jobs: seq<Job>) {
    && (forall i | 0 <= i < |jobs| :: JobOk(cfg, jobs[i]) && jobs[i].fact in facts)
    && (forall f, g | f in facts && f.cube in cfg.cubes && g in cfg.cubes[f.cube] ::
          Job(f, g, FactPartials(f.measures)) in jobs)
  }

  class Store {
    const cfg: Config
    var data: Data

    constructor (cfg: Config)
      requires ConfigOk(cfg)
      ensures this.cfg == cfg && data == map[]
    {
      this.cfg, data := cfg, map[];
    }

    /** Validates every fact before the first insert, then upserts one row per fact per grain. The inserts are
        concurrent: `asked` are they in the order they happened, and the database decides which take effect and which
        report an error, an insert given up because another failed included. */
    method Write(facts: seq<Fact>, db: Database) returns (err: Option<Error>, ghost asked: seq<Job>)
      requires ConfigOk(cfg) && Honest(db)
      modifies this
      ensures CheckFacts(cfg, facts).Some? ==> err == CheckFacts(cfg, facts) && asked == []
      ensures CheckFacts(cfg, facts).None? ==> JobsOf(cfg, facts, asked)
      ensures CheckFacts(cfg, facts).None? ==> (err.None? <==> forall i | 0 <= i < |asked| :: !db.fails(asked[i]))
      ensures forall i | 0 <= i < |asked| :: JobOk(cfg, asked[i])
      ensures data == InsertAll(cfg, old(data), Landed(cfg, db, asked))
      ensures CheckFacts(cfg, facts).None? && err.None? ==> Landed(cfg, db, asked) == asked
    {
      hide JobsOf;
      hide Insert;
      asked := [];
      var todo;
      err, todo := JobsFor(cfg, facts);
      if err.Some? {
        return;
      }
      JobsAreOk(cfg, facts, todo);
      for i := 0 to |todo|
        invariant data == InsertAll(cfg, old(data), Landed(cfg, db, todo[..i]))
        invariant err.None? <==> forall k | 0 <= k < i :: !db.fails(todo[k])
      {
        LandOne(cfg, db, old(data), todo, i);
        if db.lands(todo[i]) {
          data := Insert(cfg, data, todo[i]);
        }
        if db.fails(todo[i]) && err.None? {
          err := Some(Unavailable("insert"));
        }
      }
      assert todo[..|todo|] == todo;
      asked := todo;
      if err.None? {
        AllLanded(cfg, db, todo);
      }
    }
  }

  /** One job per fact per grain of its cube, or the first fact's error. */
  method JobsFor(cfg: Config, facts: seq<Fact>) returns (err: Option<Error>, todo: seq<Job>)
    requires ConfigOk(cfg)
    ensures err == CheckFacts(cfg, facts)
    ensures err.None? ==> JobsOf(cfg, facts, todo)
  {
    hide FactPartials;
    todo := [];
    for i := 0 to |facts|
      invariant CheckFacts(cfg, facts) == CheckFacts(cfg, facts[i..])
      invariant JobsOf(cfg, facts[..i], todo)
    {
      assert facts[i..][0] == facts[i] && facts[i..][1..] == facts[i + 1..];
      var f := facts[i];
      err := CheckFact(cfg, f);
      if err.Some? {
        return;
      }
      var grains := cfg.cubes[f.cube];
      ghost var before := todo;
      for k := 0 to |grains|
        invariant todo == before + seq(k, x requires 0 <= x < k => Job(f, grains[x], FactPartials(f.measures)))
      {
        todo := todo + [Job(f, grains[k], FactPartials(f.measures))];
      }
      JobsGrow(cfg, facts, i, before, todo);
    }
    assert facts[..|facts|] == facts && facts[|facts|..] == [];
    err := None;
  }

  lemma JobsAreOk(cfg: Config, facts: seq<Fact>, jobs: seq<Job>)
    requires JobsOf(cfg, facts, jobs)
    ensures forall i | 0 <= i < |jobs| :: JobOk(cfg, jobs[i])
  {
  }

  /** Which inserts take effect, and which report an error. */
  datatype Database = Database(lands: Job -> bool, fails: Job -> bool)

  /** An insert that did not take effect reports an error; one that did may, too. */
  ghost predicate Honest(db: Database) {
    forall j :: !db.lands(j) ==> db.fails(j)
  }

  /** The inserts that took effect. */
  function Landed(cfg: Config, db: Database, jobs: seq<Job>): (out: seq<Job>)
    requires forall i | 0 <= i < |jobs| :: JobOk(cfg, jobs[i])
    ensures forall i | 0 <= i < |out| :: JobOk(cfg, out[i])
  {
    if jobs == [] then []
    else
      var n := |jobs| - 1;
      var rest := Landed(cfg, db, jobs[..n]);
      if db.lands(jobs[n]) then rest + [jobs[n]] else rest
  }

  lemma LandOne(cfg: Config, db: Database, d: Data, jobs: seq<Job>, i: nat)
    requires i < |jobs| && forall k | 0 <= k < |jobs| :: JobOk(cfg, jobs[k])
    ensures var before := InsertAll(cfg, d, Landed(cfg, db, jobs[..i]));
            InsertAll(cfg, d, Landed(cfg, db, jobs[..i + 1]))
            == if db.lands(jobs[i]) then Insert(cfg, before, jobs[i]) else before
  {
    var landed := Landed(cfg, db, jobs[..i]);
    assert jobs[..i + 1][..i] == jobs[..i];
    assert (landed + [jobs[i]])[..|landed|] == landed;
  }

  lemma {:induction false} AllLanded(cfg: Config, db: Database, jobs: seq<Job>)
    requires Honest(db) && forall i | 0 <= i < |jobs| :: JobOk(cfg, jobs[i]) && !db.fails(jobs[i])
    ensures Landed(cfg, db, jobs) == jobs
  {
    if jobs != [] {
      AllLanded(cfg, db, jobs[..|jobs| - 1]);
      assert db.lands(jobs[|jobs| - 1]);
    }
  }

  /** Checks every cube and grain, the cubes in any order. */
  method NewStore(cfg: Config) returns (r: Result<Store, Error>)
    ensures r.Ok? <==> ConfigOk(cfg)
    ensures r.Ok? ==> fresh(r.value) && r.value.cfg == cfg && r.value.data == map[]
  {
    var todo := cfg.cubes.Keys;
    while todo != {}
      invariant todo <= cfg.cubes.Keys && forall c | c in cfg.cubes && c !in todo :: CubeOk(cfg, c)
      decreases todo
    {
      var c :| c in todo;
      if !IsIdentifier(c) {
        return Err(InvalidInput("invalid cube name " + c));
      }
      var grains := cfg.cubes[c];
      for i := 0 to |grains|
        invariant forall j | 0 <= j < i :: GrainOk(cfg, grains[j])
      {
        var g := grains[i];
        if g !in cfg.bucketWidth {
          return Err(InvalidInput("no bucket width for grain"));
        }
        if !ValidGrain(g) || !ValidGrain(cfg.bucketWidth[g]) {
          return Err(InvalidInput("unknown grain or bucket width"));
        }
      }
      todo := todo - {c};
    }
    var s := new Store(cfg);
    r := Ok(s);
  }

  lemma JobsGrow(cfg: Config, facts: seq<Fact>, i: nat, before: seq<Job>, after: seq<Job>)
    requires ConfigOk(cfg) && i < |facts| && JobsOf(cfg, facts[..i], before) && CheckFact(cfg, facts[i]).None?
    requires var f, grains := facts[i], cfg.cubes[facts[i].cube];
             after == before + seq(|grains|,
                                   x requires 0 <= x < |grains| => Job(f, grains[x], FactPartials(f.measures)))
    ensures JobsOf(cfg, facts[..i + 1], after)
  {
    hide FactPartials;
    var f, grains := facts[i], cfg.cubes[facts[i].cube];
    assert facts[..i + 1] == facts[..i] + [f];
    forall k | 0 <= k < |after| ensures JobOk(cfg, after[k]) && after[k].fact in facts[..i + 1] {
      if k >= |before| {
        assert after[k].grain == grains[k - |before|];
      }
    }
    forall h, g | h in facts[..i + 1] && h.cube in cfg.cubes && g in cfg.cubes[h.cube]
      ensures Job(h, g, FactPartials(h.measures)) in after
    {
      if h in facts[..i] {
        assert Job(h, g, FactPartials(h.measures)) in before;
      } else {
        var x :| 0 <= x < |grains| && grains[x] == g;
        assert after[|before| + x] == Job(f, g, FactPartials(f.measures));
      }
    }
  }

  // ---------- compacting ----------

  const SECOND := 1000 * MILLI

  /** A declared grain of the cube, and an aligned bucket that has ended. */
  predicate Compactable(cfg: Config, cube: string, g: Grain, bucket: int, now: int) {
    && cube in cfg.cubes && g in cfg.cubes[cube] && g in cfg.bucketWidth
    && Aligned(bucket, cfg.bucketWidth[g]) && Next(bucket, cfg.bucketWidth[g]) <= now
  }

  /** With a TTL, the bucket has less than a second of its retention left. */
  predicate Expired(cfg: Config, g: Grain, bucket: int, now: int, ttl: int)
    requires g in cfg.bucketWidth
  {
    ttl > 0 && Next(bucket, cfg.bucketWidth[g]) + ttl - now < SECOND
  }

  /** Compacts one bucket: anything but a declared, aligned and closed one is refused, an expired one is left alone, and
      any other keeps every answer in one row per group. */
  method CompactBucket(cfg: Config, part: C.Partition, cube: string, g: Grain, bucket: int, now: int, ttl: int,
                       order: seq<C.RowKey>) returns (err: Option<Error>)
    requires ConfigOk(cfg) && part.rows.Keys == (set k | k in order)
    requires forall i, j | 0 <= i < j < |order| :: order[i] != order[j]
    modifies part
    ensures err.None? <==> Compactable(cfg, cube, g, bucket, now)
    ensures err.Some? || Expired(cfg, g, bucket, now, ttl) ==>
              part.rows == old(part.rows) && part.batches == old(part.batches)
    ensures err.None? && !Expired(cfg, g, bucket, now, ttl) ==> forall k | k in part.rows :: k.idem == ""
    ensures forall h :: C.Total(part.rows, h) == C.Total(old(part.rows), h)
  {
    hide Truncate;
    hide Next;
    hide C.Total;
    if cube !in cfg.cubes || g !in cfg.cubes[cube] {
      return Some(InvalidInput("undeclared cube or grain"));
    }
    DeclaredGrain(cfg, cube, g);
    var width := cfg.bucketWidth[g];
    var end := Next(bucket, width);
    if Truncate(bucket, width) != bucket || end > now {
      return Some(InvalidInput("only a closed, aligned bucket can be compacted"));
    }
    err := None;
    if ttl > 0 && end + ttl - now < SECOND {
      return;
    }
    part.Compact(order);
  }

  lemma DeclaredGrain(cfg: Config, cube: string, g: Grain)
    requires ConfigOk(cfg) && cube in cfg.cubes && g in cfg.cubes[cube]
    ensures g in cfg.bucketWidth && ValidGrain(g) && ValidGrain(cfg.bucketWidth[g])
  {
    assert CubeOk(cfg, cube);
    var i :| 0 <= i < |cfg.cubes[cube]| && cfg.cubes[cube][i] == g;
    assert GrainOk(cfg, cfg.cubes[cube][i]);
  }

  // ---------- what was written ----------

  /** The distinct facts of one table and tenant: a fact is identified by its grain-aligned time, dimensions and key. */
  function Written(log: seq<Job>, org: string, cube: string, g: Grain): Rows {
    if log == [] then map[]
    else
      var j, rest := log[|log| - 1], Written(log[..|log| - 1], org, cube, g);
      if j.fact.org == org && j.fact.cube == cube && j.grain == g then rest[RowKeyOf(j.fact, g) := j.partials] else rest
  }

  /** The rows whose group satisfies `p`. */
  function Where(rows: Rows, p: C.Group -> bool): Rows {
    map k | k in rows && p(C.GroupOf(k)) :: rows[k]
  }

  function InBucket(w: Grain, b: int): C.Group -> bool {
    (h: C.Group) => Truncate(h.ts, w) == b
  }

  /** However often and in whatever order facts are inserted, each partition holds exactly the distinct facts of its
      bucket: redelivery changes nothing. */
  lemma {:induction false} InsertsFileFacts(cfg: Config, log: seq<Job>, org: string, cube: string, g: Grain, b: int)
    requires g in cfg.bucketWidth && AtLeastAsCoarse(cfg.bucketWidth[g], g)
    requires forall i | 0 <= i < |log| :: log[i].grain in cfg.bucketWidth
    ensures Partition(InsertAll(cfg, map[], log), PartKey(org, cube, g, b))
            == Where(Written(log, org, cube, g), InBucket(cfg.bucketWidth[g], b))
  {
    hide Truncate;
    if log != [] {
      var n := |log| - 1;
      var j, w := log[n], cfg.bucketWidth[g];
      InsertsFileFacts(cfg, log[..n], org, cube, g, b);
      if j.fact.org == org && j.fact.cube == cube && j.grain == g {
        TruncateNests(j.fact.ts, g, w);
        var before, k := Written(log[..n], org, cube, g), RowKeyOf(j.fact, g);
        var inB := InBucket(w, b);
        assert Where(before[k := j.partials], inB)
            == if inB(C.GroupOf(k)) then Where(before, inB)[k := j.partials] else Where(before, inB);
      }
    }
  }

  /** The same fact never comes with different measures. */
  ghost predicate Consistent(log: seq<Job>) {
    forall i, j | 0 <= i < |log| && 0 <= j < |log|
                  && log[i].grain == log[j].grain && log[i].fact.org == log[j].fact.org
                  && log[i].fact.cube == log[j].fact.cube
                  && RowKeyOf(log[i].fact, log[i].grain) == RowKeyOf(log[j].fact, log[j].grain) ::
      log[i].partials == log[j].partials
  }

  ghost predicate Hits(j: Job, org: string, cube: string, g: Grain, k: C.RowKey) {
    j.fact.org == org && j.fact.cube == cube && j.grain == g && RowKeyOf(j.fact, g) == k
  }

  /** What a log of consistent jobs leaves is a function of the set of its facts, not of order or repetition. */
  lemma {:induction false} WrittenIsTheSet(log: seq<Job>, org: string, cube: string, g: Grain, k: C.RowKey)
    requires Consistent(log)
    ensures k in Written(log, org, cube, g) <==> exists i :: 0 <= i < |log| && Hits(log[i], org, cube, g, k)
    ensures forall i | 0 <= i < |log| && Hits(log[i], org, cube, g, k) ::
              k in Written(log, org, cube, g) && Written(log, org, cube, g)[k] == log[i].partials
  {
    hide Truncate;
    if log != [] {
      var n := |log| - 1;
      var rest := log[..n];
      assert Consistent(rest);
      WrittenIsTheSet(rest, org, cube, g, k);
      if i :| 0 <= i < |log| && Hits(log[i], org, cube, g, k) {
        assert i < n ==> rest[i] == log[i];
      }
    }
  }

  // ---------- reading ----------

  datatype Query = Query(
    filter: Filter, cube: string, org: string, grain: Option<Grain>, groupBy: seq<string>, measures: seq<string>,
    from: int, to: int)

  datatype ResultRow = ResultRow(ts: int, group: Dims, partials: Partials)

  /** The values of the group-by dimensions; a missing one is the empty string. */
  function Project(groupBy: seq<string>, dims: Dims): Dims {
    map n | n in groupBy :: if n in dims then dims[n] else ""
  }

  function ProjectMeasures(measures: seq<string>, m: Partials): Partials {
    map n | n in m && n in measures :: m[n]
  }

  /** The distinct measure names, in order of first use. */
  method MeasureNames(refs: seq<string>) returns (out: seq<string>)
    ensures forall i, j | 0 <= i < j < |out| :: out[i] != out[j]
    ensures forall n :: n in out <==> n in refs
  {
    out := [];
    for i := 0 to |refs|
      invariant forall a, b | 0 <= a < b < |out| :: out[a] != out[b]
      invariant forall n :: n in out <==> n in refs[..i]
    {
      assert refs[..i + 1] == refs[..i] + [refs[i]];
      if refs[i] !in out {
        out := out + [refs[i]];
      }
    }
    assert refs[..|refs|] == refs;
  }

  lemma KnownGrains(grains: seq<Grain>)
    requires forall h | h in grains :: ValidGrain(h)
    ensures forall h | h in grains :: h == Month || h == Day || h == Hour || h == Minute
  {
    forall h | h in grains ensures h == Month || h == Day || h == Hour || h == Minute {
      assert ValidGrain(h);
      assert h.Month? || h.Day? || h.Hour? || h.Minute?;
    }
  }

  /** The coarsest of a cube's grains. */
  function Coarsest(grains: seq<Grain>): (g: Grain)
    requires grains != [] && forall h | h in grains :: ValidGrain(h)
    ensures g in grains && forall h | h in grains :: Rank(h) <= Rank(g)
  {
    assert grains[0] in grains;
    KnownGrains(grains);
    if Month in grains then Month else if Day in grains then Day else if Hour in grains then Hour else Minute
  }

  /** A checked query: the grain it reads and the rows it keeps. */
  datatype Plan = Plan(grain: Grain, width: Grain, lo: int, hi: int, q: Query)

  const ZERO_TIME := 0 // the unset time

  function PlanFor(cfg: Config, q: Query): Result<Plan, Error>
    requires ConfigOk(cfg)
  {
    if q.cube !in cfg.cubes then Err(InvalidInput("undeclared cube " + q.cube))
    else
      var grains := cfg.cubes[q.cube];
      if q.grain.None? && grains == [] then Err(InvalidInput("cube has no grain"))
      else
        var grain := if q.grain.Some? then q.grain.value else Coarsest(grains);
        if grain !in grains then Err(InvalidInput("cube has no grain"))
        else if q.org == "" || q.from == ZERO_TIME || q.to == ZERO_TIME || q.from >= q.to then
          Err(InvalidInput("a query needs an org_id and a bounded time range"))
        else
          var (lo, hi) := NarrowAll(TopClauses(q.filter), q.from, q.to);
          Ok(Plan(grain, cfg.bucketWidth[grain], lo, hi, q))
  }

  /** Whether a stored row is delivered: inside the bounds, and passing the residual filter. */
  predicate Keeps(tx: Texts, p: Plan, g: C.Group) {
    p.lo <= g.ts < p.hi && CompileResidual(tx, p.q.filter)(Stored(g.ts, g.dims))
  }

  /** One bucket's rows in scan order, filtered and projected. */
  function ReadBucket(tx: Texts, p: Plan, rows: Rows, order: seq<C.RowKey>): seq<ResultRow>
    requires forall k | k in order :: k in rows
  {
    if order == [] then []
    else
      var k := order[|order| - 1];
      var rest := ReadBucket(tx, p, rows, order[..|order| - 1]);
      if Keeps(tx, p, C.GroupOf(k))
      then rest + [ResultRow(k.ts, Project(p.q.groupBy, k.dims), ProjectMeasures(p.q.measures, rows[k]))]
      else rest
  }

  ghost predicate Scans(order: seq<C.RowKey>, rows: Rows) {
    && (forall k :: k in order <==> k in rows)
    && (forall i, j | 0 <= i < j < |order| :: order[i] != order[j])
  }

  /** The buckets' rows one bucket after the other; `scans` is each bucket's clustering order. */
  function ReadAll(tx: Texts, p: Plan, parts: seq<Rows>, scans: seq<seq<C.RowKey>>): seq<ResultRow>
    requires |parts| == |scans| && forall i | 0 <= i < |parts| :: Scans(scans[i], parts[i])
  {
    if parts == [] then []
    else
      var n := |parts| - 1;
      assert Scans(scans[n], parts[n]);
      ReadAll(tx, p, parts[..n], scans[..n]) + ReadBucket(tx, p, parts[n], scans[n])
  }

  /** The rows of one answer group. */
  function Of(rows: seq<ResultRow>, ts: int, group: Dims): seq<Partials> {
    if rows == [] then []
    else
      var r := rows[|rows| - 1];
      var rest := Of(rows[..|rows| - 1], ts, group);
      if r.ts == ts && r.group == group then rest + [r.partials] else rest
  }

  // ---------- from groups to answers ----------

  /** The stored groups an answer group is made of. */
  function Belongs(tx: Texts, p: Plan, ts: int, group: Dims): C.Group -> bool {
    (g: C.Group) => Keeps(tx, p, g) && g.ts == ts && Project(p.q.groupBy, g.dims) == group
  }

  function And(a: C.Group -> bool, b: C.Group -> bool): C.Group -> bool {
    (g: C.Group) => a(g) && b(g)
  }

  lemma ProjectDistributes(ms: seq<string>, a: Partials, b: Partials)
    ensures ProjectMeasures(ms, MergeRow(a, b)) == MergeRow(ProjectMeasures(ms, a), ProjectMeasures(ms, b))
    ensures ProjectMeasures(ms, map[]) == map[]
  {
    hide Merge;
  }

  lemma {:induction false} OfConcat(a: seq<ResultRow>, b: seq<ResultRow>, ts: int, group: Dims)
    ensures Of(a + b, ts, group) == Of(a, ts, group) + Of(b, ts, group)
  {
    if b == [] {
      assert a + b == a;
    } else {
      assert (a + b)[..|a + b| - 1] == a + b[..|b| - 1];
      OfConcat(a, b[..|b| - 1], ts, group);
    }
  }

  /** One more row read of a bucket. */
  lemma ReadOneMore(before: seq<ResultRow>, r: ResultRow, ts: int, group: Dims)
    ensures MergeAll(map[], Of(before + [r], ts, group))
            == if r.ts == ts && r.group == group then MergeRow(MergeAll(map[], Of(before, ts, group)), r.partials)
               else MergeAll(map[], Of(before, ts, group))
  {
    hide MergeRow;
    assert (before + [r])[..|before|] == before;
  }

  lemma FoldOneMore(ms: seq<string>, rows: Rows, k: C.RowKey, p: C.Group -> bool)
    requires k in rows
    ensures ProjectMeasures(ms, Fold(Where(rows, p)))
            == if p(C.GroupOf(k))
               then MergeRow(ProjectMeasures(ms, Fold(Where(rows - {k}, p))), ProjectMeasures(ms, rows[k]))
               else ProjectMeasures(ms, Fold(Where(rows - {k}, p)))
  {
    hide MergeRow;
    hide Fold;
    hide ProjectMeasures;
    var rest := Where(rows - {k}, p);
    if p(C.GroupOf(k)) {
      assert Where(rows, p) == rest[k := rows[k]];
      FoldAdd(rest, k, rows[k]);
      ProjectDistributes(ms, rows[k], Fold(rest));
      MergeRowCommutes(ProjectMeasures(ms, rows[k]), ProjectMeasures(ms, Fold(rest)));
    } else {
      assert Where(rows, p) == rest;
    }
  }

  /** The delivered rows of one bucket merge to the fold of the stored rows they come from. */
  lemma {:induction false} BucketMerges(tx: Texts, p: Plan, rows: Rows, order: seq<C.RowKey>, ts: int, group: Dims)
    requires Scans(order, rows)
    ensures MergeAll(map[], Of(ReadBucket(tx, p, rows, order), ts, group))
            == ProjectMeasures(p.q.measures, Fold(Where(rows, Belongs(tx, p, ts, group))))
    decreases |order|
  {
    hide MergeRow;
    hide Fold;
    hide ProjectMeasures;
    hide Keeps;
    hide Project;
    hide Where;
    if order == [] {
      NothingRead(p, rows, Belongs(tx, p, ts, group));
    } else {
      var n := |order| - 1;
      var k := order[n];
      ShorterScan(order, rows);
      BucketMerges(tx, p, rows - {k}, order[..n], ts, group);
      SameRead(tx, p, rows, rows - {k}, order[..n]);
      FoldOneMore(p.q.measures, rows, k, Belongs(tx, p, ts, group));
      ReadOneMore(ReadBucket(tx, p, rows, order[..n]),
                  ResultRow(k.ts, Project(p.q.groupBy, k.dims), ProjectMeasures(p.q.measures, rows[k])), ts, group);
    }
  }

  lemma NothingRead(p: Plan, rows: Rows, belongs: C.Group -> bool)
    requires Scans([], rows)
    ensures ProjectMeasures(p.q.measures, Fold(Where(rows, belongs))) == map[]
  {
    assert rows.Keys == {};
    FoldEmpty(Where(rows, belongs));
  }

  lemma ShorterScan(order: seq<C.RowKey>, rows: Rows)
    requires Scans(order, rows) && order != []
    ensures order[|order| - 1] in rows && Scans(order[..|order| - 1], rows - {order[|order| - 1]})
    ensures forall k | k in order[..|order| - 1] :: k in rows
  {
    assert order == order[..|order| - 1] + [order[|order| - 1]];
    assert order[|order| - 1] in order;
  }

  lemma {:induction false} SameRead(tx: Texts, p: Plan, a: Rows, b: Rows, order: seq<C.RowKey>)
    requires forall k | k in order :: k in a && k in b && a[k] == b[k]
    ensures ReadBucket(tx, p, a, order) == ReadBucket(tx, p, b, order)
  {
    if order != [] {
      SameRead(tx, p, a, b, order[..|order| - 1]);
    }
  }

  // ---------- equal group totals give equal answers ----------

  function GroupsIn(rows: Rows, p: C.Group -> bool): set<C.Group> {
    set k | k in rows && p(C.GroupOf(k)) :: C.GroupOf(k)
  }

  function Except(p: C.Group -> bool, g: C.Group): C.Group -> bool {
    (h: C.Group) => p(h) && h != g
  }

  lemma TakeGroup(rows: Rows, p: C.Group -> bool, g: C.Group)
    requires p(g)
    ensures Fold(Where(rows, p)) == MergeRow(C.Total(rows, g), Fold(Where(rows, Except(p, g))))
  {
    hide Fold;
    hide MergeRow;
    var a, b := C.InGroup(rows, g), Where(rows, Except(p, g));
    assert Where(rows, p) == a + b;
    FoldUnion(a, b);
  }

  /** Two tables that agree on every group's total agree on every selection of groups. */
  lemma {:induction false} TotalsDecide(a: Rows, b: Rows, p: C.Group -> bool, left: set<C.Group>)
    requires forall g :: C.Total(a, g) == C.Total(b, g)
    requires GroupsIn(a, p) + GroupsIn(b, p) <= left
    ensures Fold(Where(a, p)) == Fold(Where(b, p))
    decreases left
  {
    hide Fold;
    hide MergeRow;
    hide C.Total;
    if g :| g in left {
      if p(g) {
        TakeGroup(a, p, g);
        TakeGroup(b, p, g);
        TotalsDecide(a, b, Except(p, g), left - {g});
      } else {
        TotalsDecide(a, b, p, left - {g});
      }
    } else {
      assert Where(a, p) == Where(b, p) == map[] by {
        assert forall k | k in a && p(C.GroupOf(k)) :: C.GroupOf(k) in GroupsIn(a, p);
        assert forall k | k in b && p(C.GroupOf(k)) :: C.GroupOf(k) in GroupsIn(b, p);
      }
    }
  }

  /** A bucket's partition answers like the facts of its bucket: filed as written, or compacted. */
  ghost predicate Faithful(rows: Rows, facts: Rows) {
    forall g :: C.Total(rows, g) == C.Total(facts, g)
  }

  function AnyBucket(buckets: seq<int>, w: Grain): C.Group -> bool {
    (g: C.Group) => Truncate(g.ts, w) in buckets
  }

  lemma {:induction false} BucketsMerge(tx: Texts, p: Plan, facts: Rows, buckets: seq<int>, parts: seq<Rows>,
                                        scans: seq<seq<C.RowKey>>, ts: int, group: Dims)
    requires |buckets| == |parts| == |scans|
    requires forall i, j | 0 <= i < j < |buckets| :: buckets[i] != buckets[j]
    requires forall i | 0 <= i < |parts| :: Scans(scans[i], parts[i])
    requires forall i | 0 <= i < |parts| :: Faithful(parts[i], Where(facts, InBucket(p.width, buckets[i])))
    ensures MergeAll(map[], Of(ReadAll(tx, p, parts, scans), ts, group))
            == ProjectMeasures(p.q.measures,
                               Fold(Where(facts, And(Belongs(tx, p, ts, group), AnyBucket(buckets, p.width)))))
    decreases |buckets|
  {
    hide MergeRow;
    hide Fold;
    hide ProjectMeasures;
    hide Keeps;
    hide Project;
    hide Truncate;
    hide C.Total;
    var belongs := Belongs(tx, p, ts, group);
    if buckets == [] {
      FoldEmpty(Where(facts, And(belongs, AnyBucket(buckets, p.width))));
      ProjectDistributes(p.q.measures, map[], map[]);
    } else {
      var n := |buckets| - 1;
      var b, rows := buckets[n], parts[n];
      BucketsMerge(tx, p, facts, buckets[..n], parts[..n], scans[..n], ts, group);
      var before, here := ReadAll(tx, p, parts[..n], scans[..n]), ReadBucket(tx, p, rows, scans[n]);
      OfConcat(before, here, ts, group);
      MergeAllConcat(map[], Of(before, ts, group), Of(here, ts, group));
      BucketMerges(tx, p, rows, scans[n], ts, group);
      var mine := Where(facts, InBucket(p.width, b));
      TotalsDecide(rows, mine, belongs, GroupsIn(rows, belongs) + GroupsIn(mine, belongs));
      SplitLastBucket(p, facts, buckets, belongs);
      var earlier, latest := Where(facts, And(belongs, AnyBucket(buckets[..n], p.width))), Where(mine, belongs);
      FoldUnion(earlier, latest);
      ProjectDistributes(p.q.measures, Fold(earlier), Fold(latest));
      MergeFrom(MergeAll(map[], Of(before, ts, group)), Of(here, ts, group));
    }
  }

  /** Starting from a base is merging the base with a start from nothing. */
  lemma {:induction false} MergeFrom(base: Partials, rows: seq<Partials>)
    ensures MergeAll(base, rows) == MergeRow(base, MergeAll(map[], rows))
  {
    hide MergeRow;
    if rows == [] {
      MergeRowUnit(base);
    } else {
      MergeFrom(base, rows[..|rows| - 1]);
      MergeRowAssociates(base, MergeAll(map[], rows[..|rows| - 1]), rows[|rows| - 1]);
    }
  }

  lemma SplitLastBucket(p: Plan, facts: Rows, buckets: seq<int>, belongs: C.Group -> bool)
    requires buckets != [] && forall i, j | 0 <= i < j < |buckets| :: buckets[i] != buckets[j]
    ensures var n := |buckets| - 1;
            var earlier, latest := Where(facts, And(belongs, AnyBucket(buckets[..n], p.width))),
                              Where(Where(facts, InBucket(p.width, buckets[n])), belongs);
            earlier.Keys !! latest.Keys && Where(facts, And(belongs, AnyBucket(buckets, p.width))) == earlier + latest
  {
    hide Truncate;
    var n := |buckets| - 1;
    assert buckets == buckets[..n] + [buckets[n]];
    assert buckets[n] !in buckets[..n];
  }

  // ---------- the end-to-end answer ----------

  /** The facts a query asks for: grain-aligned time in range, and matching the filter. */
  ghost predicate Asked(tx: Texts, q: Query, g: C.Group) {
    q.from <= g.ts < q.to && Holds(StoredSemantics(tx), q.filter, Stored(g.ts, g.dims))
  }

  /** The brute-force answer: one pass over the distinct facts. */
  ghost function BruteForce(tx: Texts, q: Query, facts: Rows, ts: int, group: Dims): Partials {
    ProjectMeasures(q.measures,
      Fold(map k | k in facts && Asked(tx, q, C.GroupOf(k)) && k.ts == ts && Project(q.groupBy, k.dims) == group ::
           facts[k]))
  }

  lemma PlanKeepsAsked(cfg: Config, tx: Texts, p: Plan, g: C.Group)
    requires ConfigOk(cfg) && PlanFor(cfg, p.q) == Ok(p)
    ensures Keeps(tx, p, g) <==> Asked(tx, p.q, g)
  {
    hide CompileResidual;
    hide Holds;
    ResidualIsExact(tx, p.q.filter, Stored(g.ts, g.dims));
    var cs := TopClauses(p.q.filter);
    if Asked(tx, p.q, g) {
      PushdownLosesNothing(tx, p.q.filter, p.q.from, p.q.to, Stored(g.ts, g.dims));
    }
    if cs != [] {
      PushdownIsTight(cs, p.q.from, p.q.to, 0);
    }
  }

  /** Merging the delivered rows of each (time, group), in any order, gives the brute-force summary over the distinct
      facts: whatever was written, however often, compacted or not. */
  lemma AggregateIsBruteForce(cfg: Config, tx: Texts, p: Plan, facts: Rows, buckets: seq<int>, parts: seq<Rows>,
                              scans: seq<seq<C.RowKey>>, got: seq<ResultRow>, ts: int, group: Dims)
    requires ConfigOk(cfg) && PlanFor(cfg, p.q) == Ok(p)
    requires |buckets| == |parts| == |scans|
    requires forall i, j | 0 <= i < j < |buckets| :: buckets[i] < buckets[j]
    requires forall b :: b in buckets <==> Aligned(b, p.width) && Truncate(p.lo, p.width) <= b < p.hi
    requires forall i | 0 <= i < |parts| :: Scans(scans[i], parts[i])
    requires forall i | 0 <= i < |parts| :: Faithful(parts[i], Where(facts, InBucket(p.width, buckets[i])))
    requires multiset(got) == multiset(ReadAll(tx, p, parts, scans))
    ensures MergeAll(map[], Of(got, ts, group)) == BruteForce(tx, p.q, facts, ts, group)
  {
    hide Fold;
    hide MergeRow;
    hide Truncate;
    hide Keeps;
    hide Asked;
    hide PlanFor;
    hide Scans;
    hide Faithful;
    hide ReadAll;
    hide ProjectMeasures;
    var belongs := Belongs(tx, p, ts, group);
    BucketsMerge(tx, p, facts, buckets, parts, scans, ts, group);
    AnyOrder(got, ReadAll(tx, p, parts, scans), ts, group);
    BelongsIsAsked(cfg, tx, p, facts, buckets, ts, group);
  }

  /** The partitions a plan reads, as the writes left them. */
  ghost predicate AsWritten(cfg: Config, log: seq<Job>, p: Plan, buckets: seq<int>, parts: seq<Rows>)
    requires forall i | 0 <= i < |log| :: log[i].grain in cfg.bucketWidth
  {
    && |buckets| == |parts|
    && forall i | 0 <= i < |parts| ::
         parts[i] == Partition(InsertAll(cfg, map[], log), PartKey(p.q.org, p.q.cube, p.grain, buckets[i]))
  }

  /** From the inserts to the answer: facts written any number of times, in any order, and read back through the
      enumerated buckets, answer as the distinct facts do. */
  lemma WrittenFactsAreAnswered(cfg: Config, tx: Texts, log: seq<Job>, p: Plan, buckets: seq<int>, parts: seq<Rows>,
                                scans: seq<seq<C.RowKey>>, got: seq<ResultRow>, ts: int, group: Dims)
    requires ConfigOk(cfg) && PlanFor(cfg, p.q) == Ok(p) && AtLeastAsCoarse(p.width, p.grain)
    requires forall i | 0 <= i < |log| :: log[i].grain in cfg.bucketWidth
    requires AsWritten(cfg, log, p, buckets, parts) && |scans| == |parts|
    requires forall i, j | 0 <= i < j < |buckets| :: buckets[i] < buckets[j]
    requires forall b :: b in buckets <==> Aligned(b, p.width) && Truncate(p.lo, p.width) <= b < p.hi
    requires forall i | 0 <= i < |parts| :: Scans(scans[i], parts[i])
    requires multiset(got) == multiset(ReadAll(tx, p, parts, scans))
    ensures MergeAll(map[], Of(got, ts, group))
            == BruteForce(tx, p.q, Written(log, p.q.org, p.q.cube, p.grain), ts, group)
  {
    hide Truncate;
    hide Scans;
    hide ReadAll;
    hide BruteForce;
    hide Of;
    var facts := Written(log, p.q.org, p.q.cube, p.grain);
    forall i | 0 <= i < |parts| ensures Faithful(parts[i], Where(facts, InBucket(p.width, buckets[i]))) {
      InsertsFileFacts(cfg, log, p.q.org, p.q.cube, p.grain, buckets[i]);
    }
    AggregateIsBruteForce(cfg, tx, p, facts, buckets, parts, scans, got, ts, group);
  }

  lemma BelongsIsAsked(cfg: Config, tx: Texts, p: Plan, facts: Rows, buckets: seq<int>, ts: int, group: Dims)
    requires ConfigOk(cfg) && PlanFor(cfg, p.q) == Ok(p)
    requires forall b :: b in buckets <==> Aligned(b, p.width) && Truncate(p.lo, p.width) <= b < p.hi
    ensures Where(facts, And(Belongs(tx, p, ts, group), AnyBucket(buckets, p.width)))
            == map k | k in facts && Asked(tx, p.q, C.GroupOf(k)) && k.ts == ts
                       && Project(p.q.groupBy, k.dims) == group :: facts[k]
  {
    hide Truncate;
    hide CompileResidual;
    hide Asked;
    PlanWidth(cfg, p);
    hide PlanFor;
    forall k | k in facts
      ensures And(Belongs(tx, p, ts, group), AnyBucket(buckets, p.width))(C.GroupOf(k))
              <==> Asked(tx, p.q, C.GroupOf(k)) && k.ts == ts && Project(p.q.groupBy, k.dims) == group
    {
      PlanKeepsAsked(cfg, tx, p, C.GroupOf(k));
      if p.lo <= k.ts < p.hi {
        BucketsCover(p.lo, p.hi, p.width, k.ts);
      }
    }
  }

  lemma PlanWidth(cfg: Config, p: Plan)
    requires ConfigOk(cfg) && PlanFor(cfg, p.q) == Ok(p)
    ensures ValidGrain(p.width)
  {
    var grains := cfg.cubes[p.q.cube];
    var i :| 0 <= i < |grains| && grains[i] == p.grain;
  }

  // ---------- the order rows arrive in ----------

  lemma {:induction false} MergeAllAt(base: Partials, rows: seq<Partials>, i: nat)
    requires i < |rows|
    ensures MergeAll(base, rows) == MergeRow(MergeAll(base, rows[..i] + rows[i + 1..]), rows[i])
  {
    hide MergeRow;
    var n := |rows| - 1;
    if i == n {
      assert rows[..i] + rows[i + 1..] == rows[..n];
    } else {
      MergeAllAt(base, rows[..n], i);
      var fewer := rows[..i] + rows[i + 1..];
      assert fewer[..|fewer| - 1] == rows[..n][..i] + rows[..n][i + 1..];
      var a := MergeAll(base, fewer[..|fewer| - 1]);
      MergeRowAssociates(a, rows[i], rows[n]);
      MergeRowAssociates(a, rows[n], rows[i]);
      MergeRowCommutes(rows[i], rows[n]);
    }
  }

  lemma OfAt(rows: seq<ResultRow>, i: nat, ts: int, group: Dims)
    requires i < |rows|
    ensures var r := rows[i];
            MergeAll(map[], Of(rows, ts, group))
            == if r.ts == ts && r.group == group
               then MergeRow(MergeAll(map[], Of(rows[..i] + rows[i + 1..], ts, group)), r.partials)
               else MergeAll(map[], Of(rows[..i] + rows[i + 1..], ts, group))
  {
    hide MergeRow;
    hide MergeAll;
    hide Of;
    var r, a, b := rows[i], Of(rows[..i], ts, group), Of(rows[i + 1..], ts, group);
    assert rows == rows[..i] + [r] + rows[i + 1..];
    OfConcat(rows[..i] + [r], rows[i + 1..], ts, group);
    OfConcat(rows[..i], [r], ts, group);
    OfConcat(rows[..i], rows[i + 1..], ts, group);
    OfOne(r, ts, group);
    if r.ts == ts && r.group == group {
      MergeAllMiddle(a, r.partials, b);
    } else {
      assert a + [] + b == a + b;
    }
  }

  lemma OfOne(r: ResultRow, ts: int, group: Dims)
    ensures Of([r], ts, group) == if r.ts == ts && r.group == group then [r.partials] else []
  {
    assert [r][..0] == [];
  }

  lemma MergeAllMiddle(a: seq<Partials>, x: Partials, b: seq<Partials>)
    ensures MergeAll(map[], a + [x] + b) == MergeRow(MergeAll(map[], a + b), x)
  {
    hide MergeRow;
    hide MergeAll;
    var all := a + [x] + b;
    MergeAllAt(map[], all, |a|);
    assert all[..|a|] == a && all[|a| + 1..] == b && all[|a|] == x;
  }

  /** Rows of a group may be merged in any order. */
  lemma {:induction false} AnyOrder(a: seq<ResultRow>, b: seq<ResultRow>, ts: int, group: Dims)
    requires multiset(a) == multiset(b)
    ensures MergeAll(map[], Of(a, ts, group)) == MergeAll(map[], Of(b, ts, group))
    decreases |a|
  {
    hide MergeRow;
    hide MergeAll;
    hide Of;
    SameSize(a, b);
    if a != [] {
      var n := |a| - 1;
      var i := FindLast(a, b);
      AnyOrder(a[..n], b[..i] + b[i + 1..], ts, group);
      OfAt(a, n, ts, group);
      assert a[..n] + a[n + 1..] == a[..n];
      OfAt(b, i, ts, group);
    }
  }

  lemma SameSize<T>(a: seq<T>, b: seq<T>)
    requires multiset(a) == multiset(b)
    ensures |a| == |b|
  {
    assert |multiset(a)| == |a| && |multiset(b)| == |b|;
  }

  lemma FindLast<T>(a: seq<T>, b: seq<T>) returns (i: nat)
    requires multiset(a) == multiset(b) && a != []
    ensures i < |b| && b[i] == a[|a| - 1] && multiset(a[..|a| - 1]) == multiset(b[..i] + b[i + 1..])
  {
    var x := a[|a| - 1];
    assert x in multiset(b);
    i :| 0 <= i < |b| && b[i] == x;
    WithoutAt(a, |a| - 1);
    WithoutAt(b, i);
    assert a[..|a| - 1] + a[|a|..] == a[..|a| - 1];
  }

  /** Dropping the entry at `i` drops one of it. */
  lemma WithoutAt<T>(s: seq<T>, i: nat)
    requires i < |s|
    ensures multiset(s[..i] + s[i + 1..]) == multiset(s) - multiset{s[i]}
  {
    assert s == s[..i] + ([s[i]] + s[i + 1..]);
    assert multiset(s) == multiset(s[..i]) + (multiset{s[i]} + multiset(s[i + 1..]));
    assert multiset(s[..i] + s[i + 1..]) == multiset(s[..i]) + multiset(s[i + 1..]);
  }

  // ---------- what the numbers mean ----------

  /** The observations of measure `n` among `facts`, listed by `keys`. */
  function Observed(facts: map<C.RowKey, map<string, Observation>>, keys: seq<C.RowKey>, n: string): seq<real>
    requires forall k | k in keys :: k in facts && AllFinite(facts[k])
  {
    if keys == [] then []
    else
      var k, rest := keys[|keys| - 1], Observed(facts, keys[..|keys| - 1], n);
      assert k in keys && AllFinite(facts[k]);
      if n in facts[k] then rest + [facts[k][n].value] else rest
  }

  function PartialsAt(facts: map<C.RowKey, map<string, Observation>>, keys: seq<C.RowKey>): Rows {
    map k | k in facts && k in keys :: FactPartials(facts[k])
  }

  /** Folding facts summarizes exactly their observations: count, sum, extremes and sketch. */
  lemma {:induction false} FoldSummarizes(facts: map<C.RowKey, map<string, Observation>>, keys: seq<C.RowKey>,
                                          n: string)
    requires forall k | k in keys :: k in facts && AllFinite(facts[k])
    requires forall i, j | 0 <= i < j < |keys| :: keys[i] != keys[j]
    ensures var total := Fold(PartialsAt(facts, keys));
            && (n in total <==> Observed(facts, keys, n) != [])
            && (n in total ==> Describes(total[n], Observed(facts, keys, n)))
  {
    hide Fold;
    hide Describes;
    if keys == [] {
      FoldEmpty(PartialsAt(facts, keys));
    } else {
      var m := |keys| - 1;
      var k, fewer := keys[m], keys[..m];
      FoldSummarizes(facts, fewer, n);
      var rows := PartialsAt(facts, fewer);
      assert PartialsAt(facts, keys) == rows[k := FactPartials(facts[k])];
      FoldAdd(rows, k, FactPartials(facts[k]));
      MergeRowCommutes(FactPartials(facts[k]), Fold(rows));
      OneMore(Fold(rows), FactPartials(facts[k]), facts[k], Observed(facts, fewer, n), n);
    }
  }

  lemma OneMore(total: Partials, more: Partials, ms: map<string, Observation>, obs: seq<real>, n: string)
    requires AllFinite(ms) && more == FactPartials(ms)
    requires (n in total <==> obs != []) && (n in total ==> Describes(total[n], obs))
    ensures var t, o := MergeRow(total, more), if n in ms then obs + [ms[n].value] else obs;
            (n in t <==> o != []) && (n in t ==> Describes(t[n], o))
  {
    hide Merge;
    if n in ms {
      var v := ms[n].value;
      var one: seq<real> := [v];
      assert one[..0] == [];
      assert Sum(one) == Sum(one[..0]) + v;
      assert one[0] == v && v in one && multiset(one) == multiset{v};
      assert Describes(more[n], one);
      if n in total {
        MergeDescribes(total[n], more[n], obs, [v]);
      } else {
        assert obs + [v] == [v];
      }
    }
  }
}

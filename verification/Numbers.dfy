/** From a log of writes, through buckets that are compacted while they are read, to the numbers a client shows. */
module Numbers {
  import opened Wrappers
  import opened Calendar
  import opened Partials
  import opened Residual
  import opened Analytics
  import opened Answers
  import opened StreamRows
  import opened EndToEnd
  import C = Compaction
  import P = PagedReads
  import S = Stream

  /** A read of every bucket of a plan, each written, by the end, with what the log files in its partition. */
  ghost predicate ReadsLog(cfg: Config, lt: Order, log: seq<Job>, p: Plan, buckets: seq<int>,
                           fetched: seq<BucketRead>)
  {
    && (forall i | 0 <= i < |log| :: JobOk(cfg, log[i]))
    && P.Clustering(lt) && |fetched| == |buckets|
    && (forall i, j | 0 <= i < j < |buckets| :: buckets[i] < buckets[j])
    && (forall b :: b in buckets <==> Aligned(b, p.width) && Truncate(p.lo, p.width) <= b < p.hi)
    && forall i | 0 <= i < |fetched| ::
         ReadsBucket(lt, fetched[i], Partition(InsertAll(cfg, map[], log),
                                               PartKey(p.q.org, p.q.cube, p.grain, buckets[i])))
  }

  /** The distinct facts of a log that a query is about. */
  function FactsOf(log: seq<Job>, p: Plan): Rows {
    Written(log, p.q.org, p.q.cube, p.grain)
  }

  function ObservationsOf(log: seq<Job>, p: Plan): Observations {
    WrittenObservations(log, p.q.org, p.q.cube, p.grain)
  }

  /** The observations of the facts the reads count. */
  ghost function CountedObservations(lt: Order, log: seq<Job>, p: Plan, buckets: seq<int>, fetched: seq<BucketRead>)
    : Observations
  {
    var obs := ObservationsOf(log, p);
    map k | k in obs && CountedBy(lt, p.width, buckets, fetched, k) :: obs[k]
  }

  lemma LogFillsBuckets(cfg: Config, lt: Order, log: seq<Job>, p: Plan, buckets: seq<int>, fetched: seq<BucketRead>)
    requires ConfigOk(cfg) && PlanFor(cfg, p.q) == Ok(p) && AtLeastAsCoarse(p.width, p.grain)
    requires ReadsLog(cfg, lt, log, p, buckets, fetched)
    ensures ReadsBuckets(lt, p, FactsOf(log, p), buckets, fetched)
  {
    hide Truncate;
    hide P.Clustering;
    hide ReadsBucket;
    forall i | 0 <= i < |fetched|
      ensures ReadsBucket(lt, fetched[i], Where(FactsOf(log, p), InBucket(p.width, buckets[i])))
    {
      InsertsFileFacts(cfg, log, p.q.org, p.q.cube, p.grain, buckets[i]);
    }
  }

  /** The facts counted are the summaries of the observations counted, and every measure of a written fact has one. */
  lemma CountedSummaries(cfg: Config, lt: Order, log: seq<Job>, p: Plan, buckets: seq<int>, fetched: seq<BucketRead>)
    requires forall i | 0 <= i < |log| :: JobOk(cfg, log[i])
    ensures CountedFacts(lt, p.width, buckets, fetched, FactsOf(log, p))
            == Summaries(CountedObservations(lt, log, p, buckets, fetched))
    ensures AllFacts(CountedObservations(lt, log, p, buckets, fetched)) && Measured(FactsOf(log, p))
  {
    hide CountedBy;
    hide FactPartials;
    hide JobOk;
    WrittenSummaries(cfg, log, p.q.org, p.q.cube, p.grain);
    SummariesMeasured(ObservationsOf(log, p));
  }

  /** Numbers, whatever made the answer: those of the facts counted, and of all facts exactly when no fact it misses and
      asks for has a measure it asks for. */
  ghost predicate RightNumbers(tx: Texts, lt: Order, log: seq<Job>, p: Plan, buckets: seq<int>,
                               fetched: seq<BucketRead>, ts: int, group: Dims, a: Partials)
    requires AllFacts(CountedObservations(lt, log, p, buckets, fetched))
  {
    && (forall keys, n, quantile: (multiset<real>, real) -> real
          | ListsAnswer(tx, p.q, CountedObservations(lt, log, p, buckets, fetched), ts, group, keys)
            && n in p.q.measures ::
          NumbersOf(a, CountedObservations(lt, log, p, buckets, fetched), keys, n, quantile))
    && (a == BruteForce(tx, p.q, FactsOf(log, p), ts, group) <==>
        forall k, n | k in FactsOf(log, p) && !CountedBy(lt, p.width, buckets, fetched, k)
                      && InAnswer(tx, p.q, ts, group, k) && n in p.q.measures :: n !in FactsOf(log, p)[k])
  }

  lemma CountedNumbers(cfg: Config, tx: Texts, lt: Order, log: seq<Job>, p: Plan, buckets: seq<int>,
                       fetched: seq<BucketRead>, ts: int, group: Dims, a: Partials)
    requires forall i | 0 <= i < |log| :: JobOk(cfg, log[i])
    requires a == BruteForce(tx, p.q, CountedFacts(lt, p.width, buckets, fetched, FactsOf(log, p)), ts, group)
    ensures AllFacts(CountedObservations(lt, log, p, buckets, fetched))
    ensures RightNumbers(tx, lt, log, p, buckets, fetched, ts, group, a)
  {
    hide BruteForce;
    hide CountedBy;
    hide InAnswer;
    hide NumbersOf;
    hide JobOk;
    CountedSummaries(cfg, lt, log, p, buckets, fetched);
    var obs := CountedObservations(lt, log, p, buckets, fetched);
    forall keys, n, quantile: (multiset<real>, real) -> real
      | ListsAnswer(tx, p.q, obs, ts, group, keys) && n in p.q.measures
      ensures NumbersOf(a, obs, keys, n, quantile)
    {
      AnswerNumbers(tx, p.q, obs, ts, group, keys, n, quantile);
    }
    LeftOutIff(tx, p.q, FactsOf(log, p), CountedFacts(lt, p.width, buckets, fetched, FactsOf(log, p)), ts, group);
  }

  /** One query: facts written any number of times, their buckets compacted, retried and crashed on between the page
      fetches, and the merged rows finalized. The count, sum, mean, least, greatest and quantiles shown are those of the
      observations of the facts the reads count. */
  lemma NumbersDuringCompaction(cfg: Config, tx: Texts, lt: Order, log: seq<Job>, p: Plan, buckets: seq<int>,
                                fetched: seq<BucketRead>, parts: seq<Rows>, scans: seq<seq<C.RowKey>>,
                                got: seq<ResultRow>, ts: int, group: Dims)
    requires ConfigOk(cfg) && PlanFor(cfg, p.q) == Ok(p) && AtLeastAsCoarse(p.width, p.grain)
    requires ReadsLog(cfg, lt, log, p, buckets, fetched) && Showed(lt, fetched, parts)
    requires |scans| == |parts| && forall i | 0 <= i < |parts| :: Scans(scans[i], parts[i])
    requires multiset(got) == multiset(ReadAll(tx, p, parts, scans))
    ensures AllFacts(CountedObservations(lt, log, p, buckets, fetched))
    ensures RightNumbers(tx, lt, log, p, buckets, fetched, ts, group, MergeAll(map[], Of(got, ts, group)))
  {
    hide Truncate;
    hide PlanFor;
    hide Scans;
    hide ReadAll;
    hide Showed;
    hide BruteForce;
    hide RightNumbers;
    hide CountedFacts;
    hide CountedBy;
    hide Of;
    LogFillsBuckets(cfg, lt, log, p, buckets, fetched);
    QueryDuringCompaction(cfg, tx, lt, p, FactsOf(log, p), buckets, fetched, parts, scans, got, ts, group);
    CountedNumbers(cfg, tx, lt, log, p, buckets, fetched, ts, group, MergeAll(map[], Of(got, ts, group)));
  }

  /** The same through the stream, cut and resumed anywhere. */
  lemma ResumedStreamNumbers(cfg: Config, tx: Texts, lt: Order, log: seq<Job>, p: Plan, fetched: seq<BucketRead>,
                             orders: seq<seq<seq<C.RowKey>>>, u: S.World, w: S.World, w': S.World,
                             window: nat, run: seq<S.State>, n: nat, again: S.Pos,
                             window': nat, run': seq<S.State>, n': nat, ts: int, group: Dims)
    requires ConfigOk(cfg) && PlanFor(cfg, p.q) == Ok(p) && AtLeastAsCoarse(p.width, p.grain)
    requires S.Valid(u) && S.Valid(w) && S.Valid(w') && u.buckets == w.buckets == w'.buckets
    requires ReadsLog(cfg, lt, log, p, u.buckets, fetched) && ServesQuery(tx, p, lt, fetched, orders, u)
    requires AgreeBefore(w, u, again) && AgreeFrom(w', u, again)
    requires window > 0 && S.IsRun(w, S.Pos(0, 0), window, run) && n < |run|
    requires run[n].token.Some? && S.StartsAt(w', run[n].token, again)
    requires window' > 0 && S.IsStart(w', again) && S.IsRun(w', again, window', run') && n' < |run'|
    requires run'[n'].err.None? && run'[n'].cur == |w'.pages|
    ensures forall i | 0 <= i < |run[n].delivered| :: S.InRange(w, run[n].delivered[i])
    ensures forall i | 0 <= i < |run'[n'].delivered| :: S.InRange(w', run'[n'].delivered[i])
    ensures AllFacts(CountedObservations(lt, log, p, u.buckets, fetched))
    ensures var got := RowsOf(w, run[n].delivered) + RowsOf(w', run'[n'].delivered);
            RightNumbers(tx, lt, log, p, u.buckets, fetched, ts, group, MergeAll(map[], Of(got, ts, group)))
  {
    hide Truncate;
    hide PlanFor;
    hide BruteForce;
    hide RightNumbers;
    hide CountedFacts;
    hide CountedBy;
    hide InAnswer;
    hide Of;
    hide RowsOf;
    hide ServesQuery;
    hide S.IsRun;
    hide S.Valid;
    hide S.IsStart;
    hide S.StartsAt;
    hide AgreeBefore;
    hide AgreeFrom;
    LogFillsBuckets(cfg, lt, log, p, u.buckets, fetched);
    ResumedStreamAnswers(cfg, tx, lt, p, FactsOf(log, p), fetched, orders, u, w, w', window, run, n, again,
                         window', run', n', ts, group);
    var got := RowsOf(w, run[n].delivered) + RowsOf(w', run'[n'].delivered);
    CountedNumbers(cfg, tx, lt, log, p, u.buckets, fetched, ts, group, MergeAll(map[], Of(got, ts, group)));
  }
}

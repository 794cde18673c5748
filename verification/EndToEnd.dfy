/** Aggregation over buckets that writers and compactors are still working on, read page by page. */
module EndToEnd {
  import opened Wrappers
  import opened Calendar
  import opened Partials
  import opened Sequences
  import opened Residual
  import opened Analytics
  import opened Answers
  import opened StreamRows
  import C = Compaction
  import Runs = CompactionRuns
  import P = PagedReads
  import S = Stream

  type Order = (C.RowKey, C.RowKey) -> bool

  // ---------- one query ----------

  /** A bucket's run of writers and compactor, the page fetches of a read of it, and a moment no earlier than them. */
  datatype BucketRead = BucketRead(run: seq<Runs.State>, fs: seq<P.Fetch>, end: nat)

  /** A read of a bucket whose facts, by the end, are `facts`. */
  ghost predicate ReadsBucket(lt: Order, r: BucketRead, facts: Rows) {
    && P.Clustering(lt) && Runs.IsRun(r.run) && P.IsRead(lt, r.run, r.fs)
    && r.fs[|r.fs| - 1].at <= r.end < |r.run| && r.run[r.end].written == facts
  }

  ghost predicate ReadsBuckets(lt: Order, p: Plan, facts: Rows, buckets: seq<int>, fetched: seq<BucketRead>) {
    && P.Clustering(lt) && |fetched| == |buckets|
    && (forall i, j | 0 <= i < j < |buckets| :: buckets[i] < buckets[j])
    && (forall b :: b in buckets <==> Aligned(b, p.width) && Truncate(p.lo, p.width) <= b < p.hi)
    && forall i | 0 <= i < |fetched| :: ReadsBucket(lt, fetched[i], Where(facts, InBucket(p.width, buckets[i])))
  }

  /** What each bucket's pages showed. */
  ghost predicate Showed(lt: Order, fetched: seq<BucketRead>, parts: seq<Rows>) {
    && |parts| == |fetched|
    && forall i | 0 <= i < |fetched| ::
         (forall j | 0 <= j < |fetched[i].fs| :: fetched[i].fs[j].at < |fetched[i].run|)
         && parts[i] == P.Seen(lt, fetched[i].run, fetched[i].fs)
  }

  /** The read of the fact's bucket counts it. */
  ghost predicate CountedBy(lt: Order, w: Grain, buckets: seq<int>, fetched: seq<BucketRead>, k: C.RowKey) {
    forall i | 0 <= i < |buckets| == |fetched| && buckets[i] == Truncate(k.ts, w)
               && P.Clustering(lt) && P.IsRead(lt, fetched[i].run, fetched[i].fs) ::
      P.Counted(lt, fetched[i].run, fetched[i].fs, k)
  }

  ghost function CountedFacts(lt: Order, w: Grain, buckets: seq<int>, fetched: seq<BucketRead>, facts: Rows): Rows {
    map k | k in facts && CountedBy(lt, w, buckets, fetched, k) :: facts[k]
  }

  lemma CountedInBucket(lt: Order, p: Plan, facts: Rows, buckets: seq<int>, fetched: seq<BucketRead>, i: nat)
    requires ReadsBuckets(lt, p, facts, buckets, fetched) && i < |fetched|
    ensures P.IsRead(lt, fetched[i].run, fetched[i].fs)
    ensures Where(CountedFacts(lt, p.width, buckets, fetched, facts), InBucket(p.width, buckets[i]))
            == P.CountedOf(lt, fetched[i].run, fetched[i].fs, Where(facts, InBucket(p.width, buckets[i])))
  {
    hide Truncate;
    hide P.Counted;
    hide P.IsRead;
    hide P.Clustering;
    assert ReadsBucket(lt, fetched[i], Where(facts, InBucket(p.width, buckets[i])));
    forall k: C.RowKey | Truncate(k.ts, p.width) == buckets[i]
      ensures CountedBy(lt, p.width, buckets, fetched, k) <==> P.Counted(lt, fetched[i].run, fetched[i].fs, k)
    {
      assert forall j | 0 <= j < |buckets| && buckets[j] == buckets[i] :: j == i;
    }
  }

  /** Each bucket's pages answer like the facts they count. */
  lemma PagesAreFaithful(lt: Order, p: Plan, facts: Rows, buckets: seq<int>, fetched: seq<BucketRead>,
                         parts: seq<Rows>, i: nat)
    requires ReadsBuckets(lt, p, facts, buckets, fetched) && Showed(lt, fetched, parts) && i < |fetched|
    ensures Faithful(parts[i], Where(CountedFacts(lt, p.width, buckets, fetched, facts), InBucket(p.width, buckets[i])))
  {
    hide Truncate;
    hide P.Clustering;
    hide Runs.IsRun;
    hide P.Seen;
    hide C.Total;
    hide CountedFacts;
    hide Where;
    CountedInBucket(lt, p, facts, buckets, fetched, i);
    var r := fetched[i];
    assert ReadsBucket(lt, r, Where(facts, InBucket(p.width, buckets[i])));
    hide P.IsRead;
    forall g ensures C.Total(parts[i], g) == C.Total(P.CountedOf(lt, r.run, r.fs, r.run[r.end].written), g) {
      P.ReadCounts(lt, r.run, r.fs, r.end, g);
    }
  }

  /** A query's merged answer, whatever was written, folded, retried or lost to a crash between its page fetches, is
      the brute-force answer over exactly the facts it counts. It is the answer over all facts exactly when no fact
      it misses and asks for has a measure it asks for. */
  lemma QueryDuringCompaction(cfg: Config, tx: Texts, lt: Order, p: Plan, facts: Rows, buckets: seq<int>,
                              fetched: seq<BucketRead>, parts: seq<Rows>, scans: seq<seq<C.RowKey>>,
                              got: seq<ResultRow>, ts: int, group: Dims)
    requires ConfigOk(cfg) && PlanFor(cfg, p.q) == Ok(p)
    requires ReadsBuckets(lt, p, facts, buckets, fetched) && Showed(lt, fetched, parts)
    requires |scans| == |parts| && forall i | 0 <= i < |parts| :: Scans(scans[i], parts[i])
    requires multiset(got) == multiset(ReadAll(tx, p, parts, scans))
    ensures MergeAll(map[], Of(got, ts, group))
            == BruteForce(tx, p.q, CountedFacts(lt, p.width, buckets, fetched, facts), ts, group)
    ensures Measured(facts) ==>
              (MergeAll(map[], Of(got, ts, group)) == BruteForce(tx, p.q, facts, ts, group) <==>
               forall k, n | k in facts && !CountedBy(lt, p.width, buckets, fetched, k)
                             && InAnswer(tx, p.q, ts, group, k) && n in p.q.measures :: n !in facts[k])
  {
    hide Truncate;
    hide PlanFor;
    hide Scans;
    hide ReadAll;
    hide BruteForce;
    hide Faithful;
    hide CountedBy;
    hide ReadsBucket;
    hide P.Seen;
    hide InAnswer;
    hide Of;
    hide P.Clustering;
    var counted := CountedFacts(lt, p.width, buckets, fetched, facts);
    forall i | 0 <= i < |parts| ensures Faithful(parts[i], Where(counted, InBucket(p.width, buckets[i]))) {
      PagesAreFaithful(lt, p, facts, buckets, fetched, parts, i);
    }
    AggregateIsBruteForce(cfg, tx, p, counted, buckets, parts, scans, got, ts, group);
    if Measured(facts) {
      LeftOutIff(tx, p.q, facts, counted, ts, group);
    }
  }

  /** A fact is there in time and its group is on one page, or gets no batch between the pages that split it. */
  ghost predicate Undisturbed(lt: Order, r: BucketRead, k: C.RowKey) {
    P.Clustering(lt) && P.IsRead(lt, r.run, r.fs) ==>
      && k in r.run[P.Moment(lt, r.run, r.fs, k)].written
      && (P.QuietGroup(lt, r.run, r.fs, k) || P.HeadMoment(lt, r.run, r.fs, k) == P.Moment(lt, r.run, r.fs, k))
  }

  /** So the answer is brute force when every fact is undisturbed. */
  lemma UndisturbedQuery(cfg: Config, tx: Texts, lt: Order, p: Plan, facts: Rows, buckets: seq<int>,
                         fetched: seq<BucketRead>, parts: seq<Rows>, scans: seq<seq<C.RowKey>>, got: seq<ResultRow>,
                         ts: int, group: Dims)
    requires ConfigOk(cfg) && PlanFor(cfg, p.q) == Ok(p)
    requires ReadsBuckets(lt, p, facts, buckets, fetched) && Showed(lt, fetched, parts)
    requires |scans| == |parts| && forall i | 0 <= i < |parts| :: Scans(scans[i], parts[i])
    requires multiset(got) == multiset(ReadAll(tx, p, parts, scans))
    requires forall k, i | k in facts && 0 <= i < |fetched| && buckets[i] == Truncate(k.ts, p.width) ::
               Undisturbed(lt, fetched[i], k)
    ensures MergeAll(map[], Of(got, ts, group)) == BruteForce(tx, p.q, facts, ts, group)
  {
    hide Truncate;
    hide PlanFor;
    hide Scans;
    hide ReadAll;
    hide BruteForce;
    hide Showed;
    hide Of;
    forall k | k in facts ensures CountedBy(lt, p.width, buckets, fetched, k) {
      FactIsCounted(lt, p, facts, buckets, fetched, k);
    }
    assert CountedFacts(lt, p.width, buckets, fetched, facts) == facts;
    QueryDuringCompaction(cfg, tx, lt, p, facts, buckets, fetched, parts, scans, got, ts, group);
  }

  lemma FactIsCounted(lt: Order, p: Plan, facts: Rows, buckets: seq<int>, fetched: seq<BucketRead>, k: C.RowKey)
    requires ReadsBuckets(lt, p, facts, buckets, fetched)
    requires forall i | 0 <= i < |fetched| && buckets[i] == Truncate(k.ts, p.width) :: Undisturbed(lt, fetched[i], k)
    ensures CountedBy(lt, p.width, buckets, fetched, k)
  {
    hide Truncate;
    hide P.Clustering;
    hide P.IsRead;
    hide Runs.IsRun;
    hide P.Counted;
    forall i | 0 <= i < |buckets| && buckets[i] == Truncate(k.ts, p.width)
      ensures P.Counted(lt, fetched[i].run, fetched[i].fs, k)
    {
      assert ReadsBucket(lt, fetched[i], Where(facts, InBucket(p.width, buckets[i])));
      assert Undisturbed(lt, fetched[i], k);
      P.QuietIsCounted(lt, fetched[i].run, fetched[i].fs, k);
    }
  }

  /** Any query that visits one bucket and asks for some group in it and for the measure of two facts has a read of that
      bucket, with one batch between two of its pages, whose answer is wrong. */
  lemma LosingQuery(cfg: Config, tx: Texts, lt: Order, p: Plan, b: int, g: C.Group)
    returns (facts: Rows, r: BucketRead)
    requires ConfigOk(cfg) && PlanFor(cfg, p.q) == Ok(p) && P.Clustering(lt)
    requires forall x :: x in [b] <==> Aligned(x, p.width) && Truncate(p.lo, p.width) <= x < p.hi
    requires Truncate(g.ts, p.width) == b && Asked(tx, p.q, g) && "n" in p.q.measures
    ensures ReadsBuckets(lt, p, facts, [b], [r])
    ensures forall parts, scans, got: seq<ResultRow> ::
              Delivers(tx, lt, p, r, parts, scans, got) ==>
              MergeAll(map[], Of(got, g.ts, Project(p.q.groupBy, g.dims)))
              != BruteForce(tx, p.q, facts, g.ts, Project(p.q.groupBy, g.dims))
  {
    hide Truncate;
    hide PlanFor;
    hide P.Clustering;
    hide P.Seen;
    hide P.Counted;
    hide C.Total;
    hide Runs.IsRun;
    hide P.IsRead;
    hide Of;
    hide BruteForce;
    hide ReadAll;
    hide Asked;
    hide Project;
    var run, fs, first, lost := P.LosingRun(lt, g);
    P.LostIsMissed(lt, run, fs, first, lost, g);
    facts, r := run[|run| - 1].written, BucketRead(run, fs, |run| - 1);
    assert Where(facts, InBucket(p.width, b)) == facts;
    assert ReadsBucket(lt, r, facts);
    assert ReadsBuckets(lt, p, facts, [b], [r]);
    assert !CountedBy(lt, p.width, [b], [r], lost) by {
      assert [b][0] == Truncate(lost.ts, p.width) && [r][0] == r;
    }
    assert Measured(facts);
    assert InAnswer(tx, p.q, g.ts, Project(p.q.groupBy, g.dims), lost) && "n" in facts[lost];
    forall parts, scans, got: seq<ResultRow> | Delivers(tx, lt, p, r, parts, scans, got)
      ensures MergeAll(map[], Of(got, g.ts, Project(p.q.groupBy, g.dims)))
              != BruteForce(tx, p.q, facts, g.ts, Project(p.q.groupBy, g.dims))
    {
      QueryDuringCompaction(cfg, tx, lt, p, facts, [b], [r], parts, scans, got, g.ts, Project(p.q.groupBy, g.dims));
    }
  }

  /** The rows a query delivers from a read of its one bucket. */
  ghost predicate Delivers(tx: Texts, lt: Order, p: Plan, r: BucketRead, parts: seq<Rows>, scans: seq<seq<C.RowKey>>,
                           got: seq<ResultRow>)
  {
    && Showed(lt, [r], parts) && |scans| == |parts| && (forall i | 0 <= i < |parts| :: Scans(scans[i], parts[i]))
    && multiset(got) == multiset(ReadAll(tx, p, parts, scans))
  }

  // ---------- through the stream ----------

  /** The pages of one bucket: each the rows of its fetch, in some order, filtered and projected. */
  ghost predicate ServesBucket(tx: Texts, p: Plan, lt: Order, r: BucketRead, orders: seq<seq<C.RowKey>>,
                               pages: seq<S.Page>)
  {
    && |pages| == |r.fs| == |orders|
    && forall k | 0 <= k < |pages| ::
         && pages[k].err.None? && r.fs[k].at < |r.run|
         && Scans(orders[k], P.PageRows(lt, r.run, r.fs[k]))
         && pages[k].rows == ReadBucket(tx, p, P.PageRows(lt, r.run, r.fs[k]), orders[k])
  }

  lemma {:induction false} ReadBucketConcat(tx: Texts, p: Plan, rows: Rows, a: seq<C.RowKey>, b: seq<C.RowKey>)
    requires forall k | k in a + b :: k in rows
    ensures (forall k | k in a :: k in rows) && (forall k | k in b :: k in rows)
    ensures ReadBucket(tx, p, rows, a + b) == ReadBucket(tx, p, rows, a) + ReadBucket(tx, p, rows, b)
  {
    hide Keeps;
    assert forall k | k in a :: k in a + b;
    assert forall k | k in b :: k in a + b;
    if b == [] {
      assert a + b == a;
    } else {
      assert (a + b)[..|a + b| - 1] == a + b[..|b| - 1];
      assert forall k | k in b[..|b| - 1] :: k in b;
      ReadBucketConcat(tx, p, rows, a, b[..|b| - 1]);
    }
  }

  lemma JoinScans(a: Rows, b: Rows, x: seq<C.RowKey>, y: seq<C.RowKey>)
    requires Scans(x, a) && Scans(y, b) && a.Keys !! b.Keys
    ensures Scans(x + y, a + b)
  {
    forall i, j | 0 <= i < j < |x + y| ensures (x + y)[i] != (x + y)[j] {
      if i < |x| <= j {
        assert x[i] in x && y[j - |x|] in y;
      }
    }
  }

  lemma JoinReads(tx: Texts, p: Plan, a: Rows, b: Rows, x: seq<C.RowKey>, y: seq<C.RowKey>)
    requires Scans(x, a) && Scans(y, b) && a.Keys !! b.Keys
    ensures Scans(x + y, a + b)
    ensures ReadBucket(tx, p, a + b, x + y) == ReadBucket(tx, p, a, x) + ReadBucket(tx, p, b, y)
  {
    hide ReadBucket;
    JoinScans(a, b, x, y);
    ReadBucketConcat(tx, p, a + b, x, y);
    SameRead(tx, p, a + b, a, x);
    SameRead(tx, p, a + b, b, y);
  }

  /** A bucket's pages together are a read of what its fetches saw. */
  lemma {:induction false} PagesReadSeen(tx: Texts, p: Plan, lt: Order, r: BucketRead, orders: seq<seq<C.RowKey>>,
                                         pages: seq<S.Page>, n: nat)
    requires P.Clustering(lt) && P.IsRead(lt, r.run, r.fs) && ServesBucket(tx, p, lt, r, orders, pages) && n <= |pages|
    ensures Scans(Flatten(orders[..n]), P.Seen(lt, r.run, r.fs[..n]))
    ensures PageRows(pages[..n]) == ReadBucket(tx, p, P.Seen(lt, r.run, r.fs[..n]), Flatten(orders[..n]))
  {
    hide ReadBucket;
    hide P.Clustering;
    hide P.PageRows;
    if n > 0 {
      PagesReadSeen(tx, p, lt, r, orders, pages, n - 1);
      assert orders[..n] == orders[..n - 1] + [orders[n - 1]] && pages[..n] == pages[..n - 1] + [pages[n - 1]];
      FlattenAppend(orders[..n - 1], orders[n - 1]);
      PageRowsAppend(pages[..n - 1], pages[n - 1]);
      assert r.fs[..n][..n - 1] == r.fs[..n - 1];
      P.PagesApart(lt, r.run, r.fs, n - 1);
      JoinReads(tx, p, P.Seen(lt, r.run, r.fs[..n - 1]), P.PageRows(lt, r.run, r.fs[n - 1]), Flatten(orders[..n - 1]),
                orders[n - 1]);
    } else {
      NothingSeen(tx, p);
    }
  }

  lemma NothingSeen(tx: Texts, p: Plan)
    ensures Scans([], map[]) && ReadBucket(tx, p, map[], []) == []
  {
  }

  lemma {:induction false} PageRowsAppend(pages: seq<S.Page>, last: S.Page)
    ensures PageRows(pages + [last]) == PageRows(pages) + last.rows
  {
    if pages == [] {
      assert (pages + [last])[1..] == [];
    } else {
      PageRowsAppend(pages[1..], last);
      assert (pages + [last])[1..] == pages[1..] + [last];
    }
  }

  /** The pages of a query, each bucket's fetched at its own moments. */
  ghost predicate ServesQuery(tx: Texts, p: Plan, lt: Order, fetched: seq<BucketRead>,
                              orders: seq<seq<seq<C.RowKey>>>, u: S.World)
  {
    && |u.pages| == |fetched| == |orders|
    && forall i | 0 <= i < |fetched| :: ServesBucket(tx, p, lt, fetched[i], orders[i], u.pages[i])
  }

  lemma QueryPages(tx: Texts, p: Plan, lt: Order, facts: Rows, buckets: seq<int>, fetched: seq<BucketRead>,
                   orders: seq<seq<seq<C.RowKey>>>, u: S.World) returns (parts: seq<Rows>, scans: seq<seq<C.RowKey>>)
    requires ReadsBuckets(lt, p, facts, buckets, fetched) && ServesQuery(tx, p, lt, fetched, orders, u)
    ensures Showed(lt, fetched, parts) && StreamRows.Serves(tx, p, u, parts, scans)
  {
    hide Truncate;
    hide ReadBucket;
    hide P.Clustering;
    forall i | 0 <= i < |fetched| ensures P.IsRead(lt, fetched[i].run, fetched[i].fs) {
      assert ReadsBucket(lt, fetched[i], Where(facts, InBucket(p.width, buckets[i])));
    }
    hide ReadsBucket;
    parts := seq(|fetched|, i requires 0 <= i < |fetched| => P.Seen(lt, fetched[i].run, fetched[i].fs));
    scans := seq(|fetched|, i requires 0 <= i < |fetched| => Flatten(orders[i]));
    forall i | 0 <= i < |fetched|
      ensures Scans(scans[i], parts[i]) && PageRows(u.pages[i]) == ReadBucket(tx, p, parts[i], scans[i])
    {
      assert ServesBucket(tx, p, lt, fetched[i], orders[i], u.pages[i]);
      var n := |u.pages[i]|;
      PagesReadSeen(tx, p, lt, fetched[i], orders[i], u.pages[i], n);
      assert orders[i][..n] == orders[i] && u.pages[i][..n] == u.pages[i] && fetched[i].fs[..n] == fetched[i].fs;
    }
    forall b, k | 0 <= b < |u.pages| && 0 <= k < |u.pages[b]| ensures u.pages[b][k].err.None? {
      assert ServesBucket(tx, p, lt, fetched[b], orders[b], u.pages[b]);
    }
  }

  /** A client that reads some pages, stops, and later resumes from the token with a new stream to the end. Each page
      was fetched at its own moment, those of the second stream after those of the first, with writers and the
      compactor at work all along; what the first stream had fetched ahead and not delivered is fetched again.
      Whatever the two interleavings and wherever the cut, the client has the brute-force answer over the facts the
      fetches count, and over all facts exactly when none it misses and asks for has a measure it asks for. */
  lemma ResumedStreamAnswers(cfg: Config, tx: Texts, lt: Order, p: Plan, facts: Rows, fetched: seq<BucketRead>,
                             orders: seq<seq<seq<C.RowKey>>>, u: S.World, w: S.World, w': S.World,
                             window: nat, run: seq<S.State>, n: nat, again: S.Pos,
                             window': nat, run': seq<S.State>, n': nat, ts: int, group: Dims)
    requires ConfigOk(cfg) && PlanFor(cfg, p.q) == Ok(p) && S.Valid(u) && S.Valid(w) && S.Valid(w')
    requires u.buckets == w.buckets == w'.buckets
    requires ReadsBuckets(lt, p, facts, u.buckets, fetched) && ServesQuery(tx, p, lt, fetched, orders, u)
    requires AgreeBefore(w, u, again) && AgreeFrom(w', u, again)
    requires window > 0 && S.IsRun(w, S.Pos(0, 0), window, run) && n < |run|
    requires run[n].token.Some? && S.StartsAt(w', run[n].token, again)
    requires window' > 0 && S.IsStart(w', again) && S.IsRun(w', again, window', run') && n' < |run'|
    requires run'[n'].err.None? && run'[n'].cur == |w'.pages|
    ensures forall i | 0 <= i < |run[n].delivered| :: S.InRange(w, run[n].delivered[i])
    ensures forall i | 0 <= i < |run'[n'].delivered| :: S.InRange(w', run'[n'].delivered[i])
    ensures var got := RowsOf(w, run[n].delivered) + RowsOf(w', run'[n'].delivered);
            && MergeAll(map[], Of(got, ts, group))
               == BruteForce(tx, p.q, CountedFacts(lt, p.width, u.buckets, fetched, facts), ts, group)
            && (Measured(facts) ==>
                  (MergeAll(map[], Of(got, ts, group)) == BruteForce(tx, p.q, facts, ts, group) <==>
                   forall k, n | k in facts && !CountedBy(lt, p.width, u.buckets, fetched, k)
                                 && InAnswer(tx, p.q, ts, group, k) && n in p.q.measures :: n !in facts[k]))
  {
    hide Truncate;
    hide PlanFor;
    hide ReadAll;
    hide BruteForce;
    hide CountedBy;
    hide CountedFacts;
    hide InAnswer;
    hide Of;
    hide RowsOf;
    hide ReadsBuckets;
    hide ServesQuery;
    hide S.IsRun;
    hide S.Sequential;
    hide AgreeBefore;
    hide AgreeFrom;
    assert S.StartsAt(w, run[n].token, again);
    S.TokenResumesTheRest(w, S.Pos(0, 0), window, run, n, again);
    S.PrefetchDeliversInOrder(w', again, window', run', n');
    var parts, scans := QueryPages(tx, p, lt, facts, u.buckets, fetched, orders, u);
    assert InBounds(w, again);
    CutInBounds(w', u, again);
    TakenUp(w, w', u, again, run[n].delivered, run'[n'].delivered);
    PlainReadIsReadAll(tx, p, u, parts, scans);
    QueryDuringCompaction(cfg, tx, lt, p, facts, u.buckets, fetched, parts, scans,
                          RowsOf(u, S.Sequential(u, S.Pos(0, 0))), ts, group);
  }

  lemma CutInBounds(w: S.World, u: S.World, cut: S.Pos)
    requires AgreeFrom(w, u, cut) && S.IsStart(w, cut)
    ensures InBounds(u, cut)
  {
  }
}

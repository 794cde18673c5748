/** Reading a bucket page by page while it is written to and compacted. Nothing holds the pages together: each is
    read at its own moment. */
module PagedReads {
  import opened Wrappers
  import opened Partials
  import opened Compaction
  import opened StringOrder
  import R = CompactionRuns

  // ---------- the clustering order ----------

  /** A strict total order of row keys in which a group's compacted row comes before its per-fact rows. */
  ghost predicate Clustering(lt: (RowKey, RowKey) -> bool) {
    && (forall a :: !lt(a, a))
    && (forall a, b :: a == b || lt(a, b) || lt(b, a))
    && (forall a, b, c :: lt(a, b) && lt(b, c) ==> lt(a, c))
    && (forall k: RowKey | k.idem != "" :: lt(KeyIn(GroupOf(k), ""), k))
  }

  /** Time, then the rendered dimensions, then the idempotency key. */
  predicate KeyLt(render: Dims -> string, a: RowKey, b: RowKey) {
    || a.ts < b.ts
    || (a.ts == b.ts && StrLt(render(a.dims), render(b.dims)))
    || (a.ts == b.ts && render(a.dims) == render(b.dims) && StrLt(a.idem, b.idem))
  }

  function ByKey(render: Dims -> string): (RowKey, RowKey) -> bool {
    (a, b) => KeyLt(render, a, b)
  }

  /** The primary key of the table is such an order when different dimensions render differently. */
  lemma TableOrder(render: Dims -> string)
    requires forall d, e | render(d) == render(e) :: d == e
    ensures Clustering(ByKey(render))
  {
    hide StrLt;
    var lt := ByKey(render);
    forall a ensures !lt(a, a) {
      StrIrreflexive(render(a.dims));
      StrIrreflexive(a.idem);
    }
    forall a, b ensures a == b || lt(a, b) || lt(b, a) {
      StrConnected(render(a.dims), render(b.dims));
      StrConnected(a.idem, b.idem);
    }
    forall a, b, c | lt(a, b) && lt(b, c) ensures lt(a, c) {
      KeyTransitive(render, a, b, c);
    }
    forall k: RowKey | k.idem != "" ensures lt(KeyIn(GroupOf(k), ""), k) {
      EmptyIsFirst(k.idem);
    }
  }

  lemma KeyTransitive(render: Dims -> string, a: RowKey, b: RowKey, c: RowKey)
    requires KeyLt(render, a, b) && KeyLt(render, b, c)
    ensures KeyLt(render, a, c)
  {
    hide StrLt;
    if StrLt(render(a.dims), render(b.dims)) && StrLt(render(b.dims), render(c.dims)) {
      StrTransitive(render(a.dims), render(b.dims), render(c.dims));
    }
    if StrLt(a.idem, b.idem) && StrLt(b.idem, c.idem) {
      StrTransitive(a.idem, b.idem, c.idem);
    }
  }

  lemma EmptyIsFirst(s: string)
    requires s != ""
    ensures StrLt("", s)
  {
  }

  // ---------- page fetches ----------

  /** One page: read at moment `at` of the bucket's run, from after one key up to another. The last page has no end. */
  datatype Fetch = Fetch(at: nat, after: Option<RowKey>, upto: Option<RowKey>)

  predicate Covers(lt: (RowKey, RowKey) -> bool, f: Fetch, k: RowKey) {
    && (f.after.Some? ==> lt(f.after.value, k))
    && (f.upto.Some? ==> k == f.upto.value || lt(k, f.upto.value))
  }

  /** Each page goes on after the key the one before it stopped at, no earlier than it. */
  ghost predicate Linked(lt: (RowKey, RowKey) -> bool, f: Fetch, next: Fetch) {
    f.upto.Some? && next.after == f.upto && f.at <= next.at && Covers(lt, Fetch(f.at, f.after, None), f.upto.value)
  }

  /** A read of the bucket from its first key to its last. */
  ghost predicate IsRead(lt: (RowKey, RowKey) -> bool, run: seq<R.State>, fs: seq<Fetch>) {
    && fs != [] && fs[0].after == None && fs[|fs| - 1].upto == None
    && (forall i | 0 <= i < |fs| - 1 :: Linked(lt, fs[i], fs[i + 1]))
    && (forall i | 0 <= i < |fs| :: fs[i].at < |run|)
  }

  /** The rows of a page. */
  function PageRows(lt: (RowKey, RowKey) -> bool, run: seq<R.State>, f: Fetch): Rows
    requires f.at < |run|
  {
    map k | k in run[f.at].rows && Covers(lt, f, k) :: run[f.at].rows[k]
  }

  /** All rows the read saw. */
  function Seen(lt: (RowKey, RowKey) -> bool, run: seq<R.State>, fs: seq<Fetch>): Rows
    requires forall i | 0 <= i < |fs| :: fs[i].at < |run|
  {
    if fs == [] then map[] else Seen(lt, run, fs[..|fs| - 1]) + PageRows(lt, run, fs[|fs| - 1])
  }

  lemma {:induction false} Later(lt: (RowKey, RowKey) -> bool, run: seq<R.State>, fs: seq<Fetch>, i: nat, j: nat)
    requires Clustering(lt) && IsRead(lt, run, fs) && i < j < |fs|
    ensures fs[i].at <= fs[j].at && fs[i].upto.Some? && fs[j].after.Some?
    ensures fs[i].upto == fs[j].after || lt(fs[i].upto.value, fs[j].after.value)
  {
    assert Linked(lt, fs[j - 1], fs[j - 1 + 1]);
    if i < j - 1 {
      Later(lt, run, fs, i, j - 1);
    }
  }

  /** No key is on two pages. */
  lemma OnePage(lt: (RowKey, RowKey) -> bool, run: seq<R.State>, fs: seq<Fetch>, i: nat, j: nat, k: RowKey)
    requires Clustering(lt) && IsRead(lt, run, fs) && i < j < |fs|
    ensures !(Covers(lt, fs[i], k) && Covers(lt, fs[j], k))
  {
    Later(lt, run, fs, i, j);
  }

  /** Every key has its page. */
  lemma {:induction false} SomePage(lt: (RowKey, RowKey) -> bool, run: seq<R.State>, fs: seq<Fetch>, k: RowKey,
                                    from: nat)
    returns (i: nat)
    requires Clustering(lt) && IsRead(lt, run, fs) && from < |fs|
    requires fs[from].after.Some? ==> lt(fs[from].after.value, k)
    ensures from <= i < |fs| && Covers(lt, fs[i], k)
    decreases |fs| - from
  {
    if Covers(lt, fs[from], k) {
      i := from;
    } else {
      assert Linked(lt, fs[from], fs[from + 1]);
      i := SomePage(lt, run, fs, k, from + 1);
    }
  }

  ghost function PageIndex(lt: (RowKey, RowKey) -> bool, run: seq<R.State>, fs: seq<Fetch>, k: RowKey): (i: nat)
    requires Clustering(lt) && IsRead(lt, run, fs)
    ensures i < |fs| && Covers(lt, fs[i], k)
  {
    assert exists i: nat :: i < |fs| && Covers(lt, fs[i], k) by { var i := SomePage(lt, run, fs, k, 0); }
    var i: nat :| i < |fs| && Covers(lt, fs[i], k);
    i
  }

  /** When a key's page was read. */
  ghost function Moment(lt: (RowKey, RowKey) -> bool, run: seq<R.State>, fs: seq<Fetch>, k: RowKey): (m: nat)
    requires Clustering(lt) && IsRead(lt, run, fs)
    ensures m < |run|
  {
    fs[PageIndex(lt, run, fs, k)].at
  }

  /** When the compacted row of a key's group was, or would have been, read. */
  ghost function HeadMoment(lt: (RowKey, RowKey) -> bool, run: seq<R.State>, fs: seq<Fetch>, k: RowKey): (m: nat)
    requires Clustering(lt) && IsRead(lt, run, fs)
    ensures m < |run|
  {
    Moment(lt, run, fs, KeyIn(GroupOf(k), ""))
  }

  /** The compacted row is read first. */
  lemma HeadFirst(lt: (RowKey, RowKey) -> bool, run: seq<R.State>, fs: seq<Fetch>, k: RowKey)
    requires Clustering(lt) && IsRead(lt, run, fs)
    ensures HeadMoment(lt, run, fs, k) <= Moment(lt, run, fs, k)
    ensures Moment(lt, run, fs, k) <= fs[|fs| - 1].at
  {
    var head := KeyIn(GroupOf(k), "");
    var h, i := PageIndex(lt, run, fs, head), PageIndex(lt, run, fs, k);
    if k.idem == "" {
      assert k == head;
    } else {
      assert lt(head, k);
      if i < h {
        Later(lt, run, fs, i, h);
      }
    }
    if h < i {
      Later(lt, run, fs, h, i);
    }
    if i < |fs| - 1 {
      Later(lt, run, fs, i, |fs| - 1);
    }
  }

  lemma {:induction false} SeenPrefix(lt: (RowKey, RowKey) -> bool, run: seq<R.State>, fs: seq<Fetch>, n: nat,
                                      k: RowKey, i: nat)
    requires Clustering(lt) && IsRead(lt, run, fs) && n <= |fs| && i < |fs| && Covers(lt, fs[i], k)
    ensures k in Seen(lt, run, fs[..n]) <==> i < n && k in run[fs[i].at].rows
    ensures k in Seen(lt, run, fs[..n]) ==> Seen(lt, run, fs[..n])[k] == run[fs[i].at].rows[k]
  {
    hide Clustering;
    hide Linked;
    hide Covers;
    if n > 0 {
      SeenPrefix(lt, run, fs, n - 1, k, i);
      assert fs[..n][..n - 1] == fs[..n - 1];
      if i < n - 1 {
        OnePage(lt, run, fs, i, n - 1, k);
      } else if i > n - 1 {
        OnePage(lt, run, fs, n - 1, i, k);
      }
    }
  }

  /** What a page shows was on none before it. */
  lemma PagesApart(lt: (RowKey, RowKey) -> bool, run: seq<R.State>, fs: seq<Fetch>, n: nat)
    requires Clustering(lt) && IsRead(lt, run, fs) && n < |fs|
    ensures Seen(lt, run, fs[..n]).Keys !! PageRows(lt, run, fs[n]).Keys
  {
    hide Clustering;
    hide Seen;
    forall k | k in PageRows(lt, run, fs[n]) ensures k !in Seen(lt, run, fs[..n]) {
      SeenPrefix(lt, run, fs, n, k, n);
    }
  }

  /** A row is seen exactly as it was when its page was read. */
  lemma SeenAt(lt: (RowKey, RowKey) -> bool, run: seq<R.State>, fs: seq<Fetch>, k: RowKey)
    requires Clustering(lt) && IsRead(lt, run, fs)
    ensures var was := run[Moment(lt, run, fs, k)].rows;
            && (k in Seen(lt, run, fs) <==> k in was)
            && (k in was ==> Seen(lt, run, fs)[k] == was[k])
  {
    assert fs[..|fs|] == fs;
    SeenPrefix(lt, run, fs, |fs|, k, PageIndex(lt, run, fs, k));
  }

  // ---------- what a run only adds ----------

  lemma StepGrows(s: R.State, s': R.State)
    requires R.Next(s, s')
    ensures s.absorbed <= s'.absorbed
    ensures forall k | k in s.written :: k in s'.written && s'.written[k] == s.written[k]
  {
    hide Apply;
    hide Grouped;
    hide MergeAll;
  }

  lemma {:induction false} RunGrows(run: seq<R.State>, a: nat, b: nat)
    requires R.IsRun(run) && a <= b < |run|
    ensures run[a].absorbed <= run[b].absorbed
    ensures forall k | k in run[a].written :: k in run[b].written && run[b].written[k] == run[a].written[k]
    decreases b - a
  {
    hide R.Next;
    if a < b {
      RunGrows(run, a, b - 1);
      assert R.Next(run[b - 1], run[b - 1 + 1]);
      StepGrows(run[b - 1], run[b]);
    }
  }

  // ---------- which facts a read counts ----------

  /** A fact is counted when it was there by the time its page was read, and was not folded into its group's compacted
      row after that row's place had been passed. */
  ghost predicate Counted(lt: (RowKey, RowKey) -> bool, run: seq<R.State>, fs: seq<Fetch>, k: RowKey)
    requires Clustering(lt) && IsRead(lt, run, fs)
  {
    && k in run[Moment(lt, run, fs, k)].written
    && (k in run[Moment(lt, run, fs, k)].absorbed ==> k in run[HeadMoment(lt, run, fs, k)].absorbed)
  }

  ghost function CountedOf(lt: (RowKey, RowKey) -> bool, run: seq<R.State>, fs: seq<Fetch>, facts: Rows): Rows
    requires Clustering(lt) && IsRead(lt, run, fs)
  {
    map k | k in facts && Counted(lt, run, fs, k) :: facts[k]
  }

  /** The facts of a group that were already folded when its compacted row was read. */
  lemma GoneFacts(lt: (RowKey, RowKey) -> bool, run: seq<R.State>, fs: seq<Fetch>, g: Group)
    requires Clustering(lt) && IsRead(lt, run, fs) && R.IsRun(run)
    ensures Base(Seen(lt, run, fs), g) == Total(R.Absorbed(run[Moment(lt, run, fs, KeyIn(g, ""))]), g)
  {
    hide Seen;
    hide Total;
    var m := Moment(lt, run, fs, KeyIn(g, ""));
    SeenAt(lt, run, fs, KeyIn(g, ""));
    R.RunKeeps(run, m);
    assert R.Stored(run[m]);
  }

  /** The per-fact rows seen are the facts not yet folded when their page was read. */
  lemma LiveFacts(lt: (RowKey, RowKey) -> bool, run: seq<R.State>, fs: seq<Fetch>, k: RowKey)
    requires Clustering(lt) && IsRead(lt, run, fs) && R.IsRun(run)
    ensures var s := run[Moment(lt, run, fs, k)];
            && (k in FactRows(Seen(lt, run, fs)) <==> k in s.written && k !in s.absorbed)
            && (k in FactRows(Seen(lt, run, fs)) ==> FactRows(Seen(lt, run, fs))[k] == s.written[k])
  {
    hide Seen;
    var m := Moment(lt, run, fs, k);
    SeenAt(lt, run, fs, k);
    R.RunKeeps(run, m);
    assert R.Stored(run[m]);
    assert k in FactRows(run[m].rows) <==> k in R.Live(run[m]);
  }

  lemma FactsSplit(lt: (RowKey, RowKey) -> bool, run: seq<R.State>, fs: seq<Fetch>, end: nat, g: Group)
    requires Clustering(lt) && IsRead(lt, run, fs) && R.IsRun(run) && fs[|fs| - 1].at <= end < |run|
    ensures var gone := InGroup(R.Absorbed(run[Moment(lt, run, fs, KeyIn(g, ""))]), g);
            var live := InGroup(FactRows(Seen(lt, run, fs)), g);
            gone.Keys !! live.Keys && InGroup(CountedOf(lt, run, fs, run[end].written), g) == gone + live
  {
    hide Seen;
    hide FactRows;
    hide Moment;
    hide InGroup;
    hide CountedOf;
    hide R.Absorbed;
    var gone := R.Absorbed(run[Moment(lt, run, fs, KeyIn(g, ""))]);
    var live, all := FactRows(Seen(lt, run, fs)), CountedOf(lt, run, fs, run[end].written);
    forall k | GroupOf(k) == g ensures PartAt(all, gone, live, k) {
      KeySplit(lt, run, fs, end, k);
      assert HeadMoment(lt, run, fs, k) == Moment(lt, run, fs, KeyIn(g, ""));
    }
    GroupParts(all, gone, live, g);
  }

  /** At key `k` the map `all` is `gone` or `live`, which are never both there. */
  ghost predicate PartAt(all: Rows, gone: Rows, live: Rows, k: RowKey) {
    && !(k in gone && k in live) && (k in all <==> k in gone || k in live)
    && (k in gone ==> all[k] == gone[k]) && (k in live ==> all[k] == live[k])
  }

  lemma GroupParts(all: Rows, gone: Rows, live: Rows, g: Group)
    requires forall k | GroupOf(k) == g :: PartAt(all, gone, live, k)
    ensures InGroup(gone, g).Keys !! InGroup(live, g).Keys && InGroup(all, g) == InGroup(gone, g) + InGroup(live, g)
  {
    var a, b, c := InGroup(all, g), InGroup(gone, g), InGroup(live, g);
    forall k | GroupOf(k) == g
      ensures !(k in b && k in c) && (k in a <==> k in b + c) && (k in a ==> a[k] == (b + c)[k])
    {
      assert PartAt(all, gone, live, k);
    }
  }

  lemma KeySplit(lt: (RowKey, RowKey) -> bool, run: seq<R.State>, fs: seq<Fetch>, end: nat, k: RowKey)
    requires Clustering(lt) && IsRead(lt, run, fs) && R.IsRun(run) && fs[|fs| - 1].at <= end < |run|
    ensures PartAt(CountedOf(lt, run, fs, run[end].written), R.Absorbed(run[HeadMoment(lt, run, fs, k)]),
                   FactRows(Seen(lt, run, fs)), k)
  {
    hide Seen;
    hide FactRows;
    hide Moment;
    hide HeadMoment;
    var h, m := HeadMoment(lt, run, fs, k), Moment(lt, run, fs, k);
    HeadFirst(lt, run, fs, k);
    RunGrows(run, h, m);
    RunGrows(run, m, end);
    LiveFacts(lt, run, fs, k);
    R.RunKeeps(run, h);
    assert R.Stored(run[h]);
  }

  /** Whatever was written and compacted between its pages, a read sees in each group the summary of exactly the
      facts it counts: none twice, and none that is not counted. */
  lemma ReadCounts(lt: (RowKey, RowKey) -> bool, run: seq<R.State>, fs: seq<Fetch>, end: nat, g: Group)
    requires Clustering(lt) && IsRead(lt, run, fs) && R.IsRun(run) && fs[|fs| - 1].at <= end < |run|
    ensures Total(Seen(lt, run, fs), g) == Total(CountedOf(lt, run, fs, run[end].written), g)
  {
    hide MergeRow;
    hide Fold;
    hide Seen;
    hide InGroup;
    hide FactRows;
    hide CountedOf;
    hide R.Absorbed;
    hide Base;
    TotalSplits(Seen(lt, run, fs), g);
    GoneFacts(lt, run, fs, g);
    FactsSplit(lt, run, fs, end, g);
    FoldUnion(InGroup(R.Absorbed(run[Moment(lt, run, fs, KeyIn(g, ""))]), g), InGroup(FactRows(Seen(lt, run, fs)), g));
  }

  // ---------- how a fact is missed ----------

  /** A batch that folds the fact into its group's compacted row. */
  ghost predicate Folds(s: R.State, s': R.State, k: RowKey) {
    R.SendBatch(s, s') && k in Doomed(R.NextBatch(s.comp))
  }

  lemma StepFolds(s: R.State, s': R.State, k: RowKey)
    requires R.Next(s, s') && k !in s.absorbed && k in s'.absorbed
    ensures Folds(s, s', k)
  {
    hide Apply;
    hide Grouped;
    hide MergeAll;
    hide Doomed;
  }

  /** A fact that was folded meanwhile was folded by some batch. */
  lemma {:induction false} FoldedBetween(run: seq<R.State>, a: nat, b: nat, k: RowKey)
    requires R.IsRun(run) && a <= b < |run|
    ensures k in run[b].absorbed && k !in run[a].absorbed <==>
              exists n: nat :: a <= n < b && Folds(run[n], run[n + 1], k)
    decreases b - a
  {
    hide R.Next;
    hide Folds;
    if a < b {
      var c := b - 1;
      FoldedBetween(run, a, c, k);
      assert R.Next(run[c], run[c + 1]);
      RunGrows(run, a, c);
      LastFold(run, c, k);
      if n: nat :| a <= n < b && Folds(run[n], run[n + 1], k) {
        assert n < c || n == c;
      }
    }
  }

  lemma LastFold(run: seq<R.State>, c: nat, k: RowKey)
    requires R.IsRun(run) && c + 1 < |run|
    ensures Folds(run[c], run[c + 1], k) <==> k in run[c + 1].absorbed && k !in run[c].absorbed
    ensures run[c].absorbed <= run[c + 1].absorbed
  {
    hide R.Stored;
    hide R.Next;
    assert R.Next(run[c], run[c + 1]);
    StepGrows(run[c], run[c + 1]);
    if Folds(run[c], run[c + 1], k) {
      R.RunKeeps(run, c);
      FoldsNew(run[c], run[c + 1], k);
    } else if k in run[c + 1].absorbed && k !in run[c].absorbed {
      StepFolds(run[c], run[c + 1], k);
    }
  }

  /** The batch due absorbs rows as they were read. */
  lemma DueIsAbsorbable(s: R.State)
    requires R.CompactorKnows(s) && s.comp.Running? && s.comp.todo != []
    requires s.comp.start < |s.comp.todo[0].keys| == |s.comp.todo[0].facts|
    ensures var c := s.comp;
            var b, end := R.NextBatch(c), ChunkEnd(c.start, |c.todo[0].keys|);
            Absorbable(s.rows, b.g, b.keys, c.todo[0].facts[c.start..end])
  {
    hide MergeAll;
    hide Absorbable;
    var c := s.comp;
    var r, end := c.todo[0], ChunkEnd(c.start, |c.todo[0].keys|);
    var keys, facts := r.keys[c.start..], r.facts[c.start..];
    assert R.Pending(s.rows, r, c.start, c.merged);
    assert keys[..end - c.start] == r.keys[c.start..end] && facts[..end - c.start] == r.facts[c.start..end];
    SliceAbsorbable(s.rows, r.g, keys, facts, end - c.start);
  }

  /** Only facts not yet folded are folded. */
  lemma FoldsNew(s: R.State, s': R.State, k: RowKey)
    requires R.Inv(s) && Folds(s, s', k)
    ensures k in s'.absorbed && k !in s.absorbed
  {
    hide R.NextBatch;
    hide R.Stored;
    hide R.CompactorKnows;
    hide R.AllSettled;
    hide Absorbable;
    hide Apply;
    hide Doomed;
    var c := s.comp;
    DueIsAbsorbable(s);
    R.BatchFacts(s, R.NextBatch(c), c.todo[0].facts[c.start..ChunkEnd(c.start, |c.todo[0].keys|)]);
  }

  /** A fact is missed exactly when it was written after its page was read, or some batch folded it between the
      reading of its group's compacted row and of its own page. */
  lemma MissedIff(lt: (RowKey, RowKey) -> bool, run: seq<R.State>, fs: seq<Fetch>, k: RowKey)
    requires Clustering(lt) && IsRead(lt, run, fs) && R.IsRun(run)
    ensures var h, m := HeadMoment(lt, run, fs, k), Moment(lt, run, fs, k);
            !Counted(lt, run, fs, k) <==>
            k !in run[m].written || exists n: nat :: h <= n < m && Folds(run[n], run[n + 1], k)
  {
    hide Moment;
    hide HeadMoment;
    hide Folds;
    HeadFirst(lt, run, fs, k);
    FoldedBetween(run, HeadMoment(lt, run, fs, k), Moment(lt, run, fs, k), k);
  }

  /** No batch for the group of `k` is sent between the reading of the group's compacted row and of the key's page. */
  ghost predicate QuietGroup(lt: (RowKey, RowKey) -> bool, run: seq<R.State>, fs: seq<Fetch>, k: RowKey)
    requires Clustering(lt) && IsRead(lt, run, fs)
  {
    forall n: nat | HeadMoment(lt, run, fs, k) <= n < Moment(lt, run, fs, k) && R.SendBatch(run[n], run[n + 1]) ::
      run[n].comp.todo[0].g != GroupOf(k)
  }

  /** So a fact that was there is counted when its group is not split over pages, or gets no batch in between. */
  lemma QuietIsCounted(lt: (RowKey, RowKey) -> bool, run: seq<R.State>, fs: seq<Fetch>, k: RowKey)
    requires Clustering(lt) && IsRead(lt, run, fs) && R.IsRun(run) && k in run[Moment(lt, run, fs, k)].written
    requires QuietGroup(lt, run, fs, k) || HeadMoment(lt, run, fs, k) == Moment(lt, run, fs, k)
    ensures Counted(lt, run, fs, k)
  {
    hide Moment;
    hide HeadMoment;
    MissedIff(lt, run, fs, k);
  }

  // ---------- a read that loses a fact ----------

  function OneFact(): Partials { map["n" := Partial(1.0, 1, 1.0, 1.0, Some(multiset{1.0}))] }

  lemma TwoGrouped(g: Group, i: string, j: string, m: Partials)
    requires i != j && i != "" && j != ""
    ensures Grouped(map[KeyIn(g, i) := m, KeyIn(g, j) := m], [GroupRows(g, map[], [i, j], [m, m])])
  {
    var both, r := map[KeyIn(g, i) := m, KeyIn(g, j) := m], GroupRows(g, map[], [i, j], [m, m]);
    assert ReadOf(both, r);
    assert [r][0].g == g;
    forall k | k in both ensures HasGroup([r], GroupOf(k)) {
    }
  }

  lemma TwoFolded(c: R.Compactor, g: Group, i: string, j: string, m: Partials)
    requires c == R.Running([GroupRows(g, map[], [i, j], [m, m])], 0, map[]) && i != "" && j != ""
    ensures var b := R.NextBatch(c);
            && b.g == g && Doomed(b) == {KeyIn(g, i), KeyIn(g, j)}
            && Apply(map[KeyIn(g, i) := m, KeyIn(g, j) := m], b) == map[KeyIn(g, "") := b.merged]
  {
    hide MergeAll;
    var b := R.NextBatch(c);
    assert b.keys == [i, j];
    assert KeyIn(g, b.keys[0]) in Doomed(b) && KeyIn(g, b.keys[1]) in Doomed(b);
  }

  lemma TwoPages(lt: (RowKey, RowKey) -> bool, run: seq<R.State>, fs: seq<Fetch>, first: RowKey, lost: RowKey,
                 g: Group, merged: Partials)
    requires Clustering(lt) && |run| == 6 && lt(first, lost) && first.idem != "" && GroupOf(first) == g
    requires run[4].rows == map[first := OneFact(), lost := OneFact()] && run[5].rows == map[KeyIn(g, "") := merged]
    requires fs == [Fetch(4, None, Some(first)), Fetch(5, Some(first), None)]
    ensures Seen(lt, run, fs) == map[first := OneFact()]
  {
    hide OneFact;
    Apart(lt, first, lost, g);
    hide Clustering;
    FirstOfTwo(lt, run, first, lost);
    AfterFirst(lt, run, first, KeyIn(g, ""), merged);
    hide PageRows;
    assert fs[..1] == [fs[0]] && [fs[0]][..0] == [];
    assert Seen(lt, run, [fs[0]]) == map[] + PageRows(lt, run, fs[0]);
  }

  lemma FirstOfTwo(lt: (RowKey, RowKey) -> bool, run: seq<R.State>, first: RowKey, lost: RowKey)
    requires |run| == 6 && run[4].rows == map[first := OneFact(), lost := OneFact()] && lost != first
             && !lt(lost, first)
    ensures PageRows(lt, run, Fetch(4, None, Some(first))) == map[first := OneFact()]
  {
    hide OneFact;
  }

  lemma AfterFirst(lt: (RowKey, RowKey) -> bool, run: seq<R.State>, first: RowKey, head: RowKey, merged: Partials)
    requires |run| == 6 && run[5].rows == map[head := merged] && !lt(first, head)
    ensures PageRows(lt, run, Fetch(5, Some(first), None)) == map[]
  {
  }

  lemma Apart(lt: (RowKey, RowKey) -> bool, first: RowKey, lost: RowKey, g: Group)
    requires Clustering(lt) && lt(first, lost) && first.idem != "" && GroupOf(first) == g
    ensures lost != first && !lt(lost, first) && !lt(first, KeyIn(g, "")) && KeyIn(g, "") != first
  {
    assert lt(KeyIn(g, ""), first);
  }

  lemma TwoFacts(first: RowKey, lost: RowKey, g: Group)
    requires first != lost && GroupOf(first) == g == GroupOf(lost)
    ensures Total(map[first := OneFact()], g) != Total(map[first := OneFact(), lost := OneFact()], g)
  {
    var m := OneFact();
    var none: Rows := map[];
    var one: Rows := none[first := m];
    FoldEmpty(none);
    FoldAdd(none, first, m);
    FoldAdd(one, lost, m);
    MergeRowUnit(m);
    assert one == map[first := m] && one[lost := m] == map[first := m, lost := m];
    assert InGroup(one, g) == one && InGroup(one[lost := m], g) == one[lost := m];
    assert m["n"].count == 1 && MergeRow(m, m)["n"].count == 2;
  }

  /** Two facts are written, read by the compactor, and folded in one batch. */
  lemma FoldedRun(g: Group, i: string, j: string, m: Partials) returns (run: seq<R.State>, merged: Partials)
    requires i != j && i != "" && j != ""
    ensures R.IsRun(run) && |run| == 6
    ensures run[4].rows == map[KeyIn(g, i) := m, KeyIn(g, j) := m] == run[5].written
    ensures run[5].rows == map[KeyIn(g, "") := merged]
  {
    hide Grouped;
    hide Apply;
    hide Doomed;
    hide MergeAll;
    var a, both := KeyIn(g, i), map[KeyIn(g, i) := m, KeyIn(g, j) := m];
    var r := GroupRows(g, map[], [i, j], [m, m]);
    var s0 := R.State(map[], map[], {}, map[], R.Idle);
    var s1 := R.State(map[a := m], map[a := m], {}, map[], R.Idle);
    var s2 := R.State(both, both, {}, map[], R.Idle);
    var s3 := s2.(comp := R.Reading(both.Keys));
    var s4 := s2.(comp := R.Running([r], 0, map[]));
    var b := R.NextBatch(s4.comp);
    var s5 := R.State(Apply(both, b), both, {} + Doomed(b), map[][b.g := b], R.Running([r], 2, b.merged));
    assert R.Write(s0, s1, a, m) && R.Write(s1, s2, KeyIn(g, j), m);
    assert R.BeginRead(s2, s3);
    TwoGrouped(g, i, j, m);
    assert (map k | k in both && k in both.Keys :: both[k]) == both;
    assert R.EndRead(s3, s4, both.Keys, [r]);
    TwoFolded(s4.comp, g, i, j, m);
    assert R.SendBatch(s4, s5);
    run, merged := [s0, s1, s2, s3, s4, s5], b.merged;
    forall n | 0 <= n < |run| - 1 ensures R.Next(run[n], run[n + 1]) {
    }
  }

  /** Two facts of one group, read one to a page, and a batch between the two pages: the second fact is folded into a
      row the read has passed, and deleted. */
  lemma LosingRun(lt: (RowKey, RowKey) -> bool, g: Group)
      returns (run: seq<R.State>, fs: seq<Fetch>, first: RowKey, lost: RowKey)
    requires Clustering(lt)
    ensures R.IsRun(run) && IsRead(lt, run, fs) && fs[|fs| - 1].at == |run| - 1
    ensures run[|run| - 1].written == map[first := OneFact(), lost := OneFact()] && first != lost
    ensures GroupOf(first) == GroupOf(lost) == g && first.idem != "" && Seen(lt, run, fs) == map[first := OneFact()]
    ensures Total(Seen(lt, run, fs), g) != Total(run[|run| - 1].written, g)
  {
    hide R.IsRun;
    hide Total;
    hide Seen;
    hide OneFact;
    var swap := lt(KeyIn(g, "b"), KeyIn(g, "a"));
    var i, j := if swap then "b" else "a", if swap then "a" else "b";
    first, lost := KeyIn(g, i), KeyIn(g, j);
    var merged;
    run, merged := FoldedRun(g, i, j, OneFact());
    fs := [Fetch(4, None, Some(first)), Fetch(5, Some(first), None)];
    assert Linked(lt, fs[0], fs[1]);
    TwoPages(lt, run, fs, first, lost, g, merged);
    TwoFacts(first, lost, g);
  }

  /** The lost fact is not counted. */
  lemma LostIsMissed(lt: (RowKey, RowKey) -> bool, run: seq<R.State>, fs: seq<Fetch>, first: RowKey, lost: RowKey,
                     g: Group)
    requires Clustering(lt) && IsRead(lt, run, fs) && R.IsRun(run) && fs[|fs| - 1].at == |run| - 1
    requires run[|run| - 1].written == map[first := OneFact(), lost := OneFact()] && first.idem != ""
    requires Seen(lt, run, fs) == map[first := OneFact()]
    requires Total(Seen(lt, run, fs), g) != Total(run[|run| - 1].written, g)
    ensures !Counted(lt, run, fs, lost)
  {
    hide Clustering;
    hide Linked;
    hide R.IsRun;
    hide Total;
    hide Counted;
    hide OneFact;
    var end := |run| - 1;
    ReadCounts(lt, run, fs, end, g);
    KeySplit(lt, run, fs, end, first);
    assert first in FactRows(Seen(lt, run, fs));
    var all := run[end].written;
    var counted := CountedOf(lt, run, fs, all);
    assert first in counted;
    assert lost in counted ==> counted == all;
  }
}

/** Batches that take effect late, again or out of order, after their calls had failed. */
module LateBatches {
  import opened Partials
  import opened Compaction
  import opened Answers
  import R = CompactionRuns
  import P = PagedReads

  /** The compactor has a batch to send. */
  ghost predicate CanSend(s: R.State) {
    && s.comp.Running? && s.comp.todo != []
    && s.comp.start < |s.comp.todo[0].keys| == |s.comp.todo[0].facts|
  }

  /** The batch due at moment `at` of a run takes effect. Its deletes do whatever they find; its upsert wins, or
      loses to a newer write of the compacted row. */
  datatype Landing = Landing(at: nat, wins: bool)

  ghost predicate Lands(run: seq<R.State>, l: Landing) {
    l.at < |run| && CanSend(run[l.at])
  }

  function BatchOf(run: seq<R.State>, l: Landing): Batch
    requires Lands(run, l)
  {
    R.NextBatch(run[l.at].comp)
  }

  function Land(rows: Rows, b: Batch, wins: bool): Rows {
    if wins then Apply(rows, b) else rows - Doomed(b)
  }

  ghost predicate AllLand(run: seq<R.State>, ls: seq<Landing>) {
    forall i | 0 <= i < |ls| :: Lands(run, ls[i])
  }

  /** The rows after the landings, first to last. */
  function Landed(run: seq<R.State>, rows: Rows, ls: seq<Landing>): Rows
    requires AllLand(run, ls)
  {
    if ls == [] then rows
    else
      var l := ls[|ls| - 1];
      Land(Landed(run, rows, ls[..|ls| - 1]), BatchOf(run, l), l.wins)
  }

  /** The facts whose own rows are gone. */
  function Gone(run: seq<R.State>, c: nat, ls: seq<Landing>): set<RowKey>
    requires c < |run| && AllLand(run, ls)
  {
    if ls == [] then run[c].absorbed
    else Gone(run, c, ls[..|ls| - 1]) + Doomed(BatchOf(run, ls[|ls| - 1]))
  }

  /** The facts in a batch's row. */
  function Content(run: seq<R.State>, l: Landing): set<RowKey>
    requires Lands(run, l)
  {
    run[l.at].absorbed + Doomed(BatchOf(run, l))
  }

  /** The facts in the compacted row of a group: those of the last upsert that won. */
  function Folded(run: seq<R.State>, c: nat, ls: seq<Landing>, g: Group): set<RowKey>
    requires c < |run| && AllLand(run, ls)
  {
    if ls == [] then run[c].absorbed
    else
      var l := ls[|ls| - 1];
      if l.wins && BatchOf(run, l).g == g then Content(run, l) else Folded(run, c, ls[..|ls| - 1], g)
  }

  function Among(rows: Rows, keys: set<RowKey>): Rows {
    map k | k in rows && k in keys :: rows[k]
  }

  /** The facts with neither a row of their own nor a part in the compacted row. */
  function Lost(run: seq<R.State>, c: nat, ls: seq<Landing>, g: Group): Rows
    requires c < |run| && AllLand(run, ls)
  {
    Among(run[c].written, Gone(run, c, ls) - Folded(run, c, ls, g))
  }

  /** A compactor computes a batch from batches that took effect: those up to `c`, or that landed before it. */
  ghost predicate Informed(run: seq<R.State>, c: nat, ls: seq<Landing>)
    requires c < |run| && AllLand(run, ls)
  {
    forall i | 0 <= i < |ls| :: run[ls[i].at].absorbed <= Gone(run, c, ls[..i])
  }

  /** What the rows of a group are made of. */
  ghost predicate MadeOf(rows: Rows, written: Rows, g: Group, folded: set<RowKey>, gone: set<RowKey>) {
    && Base(rows, g) == Total(Among(written, folded), g)
    && InGroup(FactRows(rows), g) == InGroup(Among(written, written.Keys - gone), g)
  }

  // ---------- one batch ----------

  /** The row a batch upserts is the fold of the facts absorbed by then and of those it deletes. */
  lemma BatchContent(s: R.State)
    requires R.Inv(s) && CanSend(s)
    ensures var b := R.NextBatch(s.comp);
            && KeyIn(b.g, "") !in Doomed(b) && s.absorbed + Doomed(b) <= s.written.Keys
            && b.merged == Total(Among(s.written, s.absorbed + Doomed(b)), b.g)
  {
    var b := R.NextBatch(s.comp);
    var s' := R.State(Apply(s.rows, b), s.written, s.absorbed + Doomed(b), s.sent[b.g := b],
                      R.Running(s.comp.todo, ChunkEnd(s.comp.start, |s.comp.todo[0].keys|), b.merged));
    R.SendBatchKeeps(s, s');
    hide R.NextBatch;
    assert R.Settled(s', s'.sent[b.g]);
    assert R.Absorbed(s') == Among(s.written, s.absorbed + Doomed(b));
  }

  lemma LandMakes(rows: Rows, written: Rows, g: Group, folded: set<RowKey>, gone: set<RowKey>, b: Batch, wins: bool,
                  content: set<RowKey>)
    requires MadeOf(rows, written, g, folded, gone)
    requires KeyIn(b.g, "") !in Doomed(b) && b.merged == Total(Among(written, content), b.g)
    ensures MadeOf(Land(rows, b, wins), written, g, if wins && b.g == g then content else folded, gone + Doomed(b))
  {
    hide Total;
    assert KeyIn(g, "") !in Doomed(b) by {
      assert forall k | k in Doomed(b) :: GroupOf(k) == b.g;
      assert GroupOf(KeyIn(g, "")) == g;
    }
    LandDeletes(rows, b, wins, g);
    OwnRows(written, g, gone, Doomed(b));
    hide Doomed;
    hide InGroup;
    hide FactRows;
  }

  lemma LandDeletes(rows: Rows, b: Batch, wins: bool, g: Group)
    ensures InGroup(FactRows(Land(rows, b, wins)), g) == InGroup(FactRows(rows), g) - Doomed(b)
  {
    hide Doomed;
  }

  lemma OwnRows(written: Rows, g: Group, gone: set<RowKey>, more: set<RowKey>)
    ensures InGroup(Among(written, written.Keys - (gone + more)), g)
            == InGroup(Among(written, written.Keys - gone), g) - more
  {
  }

  // ---------- any number of landings ----------

  lemma StartMadeOf(s: R.State, g: Group)
    requires R.Inv(s)
    ensures MadeOf(s.rows, s.written, g, s.absorbed, s.absorbed)
  {
    hide Fold;
    assert R.Absorbed(s) == Among(s.written, s.absorbed);
    assert R.Live(s) == Among(s.written, s.written.Keys - s.absorbed);
  }

  /** Whenever it was computed, a batch folds facts as they are written. */
  lemma ContentAt(run: seq<R.State>, c: nat, e: nat, l: Landing)
    requires R.IsRun(run) && c <= e < |run| && run[e].written == run[c].written && Lands(run, l) && l.at <= e
    ensures var b := BatchOf(run, l);
            && KeyIn(b.g, "") !in Doomed(b) && Content(run, l) <= run[c].written.Keys
            && b.merged == Total(Among(run[c].written, Content(run, l)), b.g)
  {
    hide R.IsRun;
    hide R.Inv;
    hide CanSend;
    hide Total;
    R.RunKeeps(run, l.at);
    BatchContent(run[l.at]);
    P.RunGrows(run, l.at, e);
    assert Among(run[c].written, Content(run, l)) == Among(run[l.at].written, Content(run, l));
  }

  lemma {:induction false} LandingsMake(run: seq<R.State>, c: nat, e: nat, ls: seq<Landing>, g: Group)
    requires R.IsRun(run) && c <= e < |run| && run[e].written == run[c].written
    requires AllLand(run, ls) && forall i | 0 <= i < |ls| :: ls[i].at <= e
    ensures MadeOf(Landed(run, run[c].rows, ls), run[c].written, g, Folded(run, c, ls, g), Gone(run, c, ls))
  {
    hide R.IsRun;
    hide MadeOf;
    hide R.Inv;
    hide Lands;
    if ls == [] {
      R.RunKeeps(run, c);
      StartMadeOf(run[c], g);
    } else {
      var n := |ls| - 1;
      LandingsMake(run, c, e, ls[..n], g);
      ContentAt(run, c, e, ls[n]);
      LandMakes(Landed(run, run[c].rows, ls[..n]), run[c].written, g, Folded(run, c, ls[..n], g), Gone(run, c, ls[..n]),
                BatchOf(run, ls[n]), ls[n].wins, Content(run, ls[n]));
    }
  }

  /** Nothing is both in the compacted row and in a row of its own. */
  lemma {:induction false} FoldedAreGone(run: seq<R.State>, c: nat, ls: seq<Landing>, g: Group)
    requires c < |run| && AllLand(run, ls) && Informed(run, c, ls)
    ensures Folded(run, c, ls, g) <= Gone(run, c, ls)
  {
    hide Doomed;
    hide CanSend;
    hide R.NextBatch;
    if ls != [] {
      var n := |ls| - 1;
      assert forall i | 0 <= i < n :: ls[..n][..i] == ls[..i];
      FoldedAreGone(run, c, ls[..n], g);
      assert run[ls[n].at].absorbed <= Gone(run, c, ls[..n]);
    }
  }

  lemma Parts(written: Rows, g: Group, folded: set<RowKey>, gone: set<RowKey>)
    requires folded <= gone
    ensures var base, own := InGroup(Among(written, folded), g), InGroup(Among(written, written.Keys - gone), g);
            var lost := InGroup(Among(written, gone - folded), g);
            && base.Keys !! own.Keys && (base + own).Keys !! lost.Keys && InGroup(written, g) == base + own + lost
  {
    var base, own := InGroup(Among(written, folded), g), InGroup(Among(written, written.Keys - gone), g);
    var lost := InGroup(Among(written, gone - folded), g);
    assert InGroup(written, g).Keys == base.Keys + own.Keys + lost.Keys;
  }

  lemma MadeOfLoses(rows: Rows, written: Rows, g: Group, folded: set<RowKey>, gone: set<RowKey>)
    requires MadeOf(rows, written, g, folded, gone) && folded <= gone
    ensures Total(written, g) == MergeRow(Total(rows, g), Total(Among(written, gone - folded), g))
  {
    hide MergeRow;
    hide Fold;
    TotalSplits(rows, g);
    var base, own := InGroup(Among(written, folded), g), InGroup(Among(written, written.Keys - gone), g);
    var lost := InGroup(Among(written, gone - folded), g);
    Parts(written, g, folded, gone);
    hide InGroup;
    hide Among;
    FoldUnion(base, own);
    FoldUnion(base + own, lost);
  }

  lemma LosesNothingIff(lost: Rows, g: Group, t: Partials)
    requires Measured(lost)
    ensures MergeRow(t, Total(lost, g)) == t <==> forall k | k in lost && GroupOf(k) == g :: lost[k] == map[]
  {
    hide Fold;
    hide MergeRow;
    var rows := InGroup(lost, g);
    forall n ensures n in Fold(rows) <==> exists k :: k in rows && n in rows[k] { FoldNames(rows, n); }
    forall n | n in Fold(rows) ensures Fold(rows)[n].count >= 1 { FoldNames(rows, n); }
    MergeChanges(t, Fold(rows));
    assert forall k | k in lost && GroupOf(k) == g :: k in rows && rows[k] == lost[k];
    if k :| k in rows && rows[k] != map[] {
      var n :| n in rows[k];
      assert n in Fold(rows);
    } else {
      assert forall n :: n !in Fold(rows);
      assert Fold(rows) == map[];
    }
  }

  /** Batches that were due at any moments of a run land after moment `c`, in any number and order, each upsert
      newest or not: the answer lacks exactly the facts lost, and is right exactly when none of those has a measure. */
  lemma LandingsKeepIff(run: seq<R.State>, c: nat, e: nat, ls: seq<Landing>, g: Group)
    requires R.IsRun(run) && c <= e < |run| && run[e].written == run[c].written
    requires AllLand(run, ls) && (forall i | 0 <= i < |ls| :: ls[i].at <= e) && Informed(run, c, ls)
    ensures Total(run[c].written, g) == MergeRow(Total(Landed(run, run[c].rows, ls), g), Total(Lost(run, c, ls, g), g))
    ensures Measured(run[c].written) ==>
              (Total(Landed(run, run[c].rows, ls), g) == Total(run[c].written, g) <==>
               forall k | k in Lost(run, c, ls, g) && GroupOf(k) == g :: run[c].written[k] == map[])
  {
    hide R.IsRun;
    hide Total;
    hide MergeRow;
    hide MadeOf;
    hide Informed;
    hide AllLand;
    LandingsMake(run, c, e, ls, g);
    FoldedAreGone(run, c, ls, g);
    MadeOfLoses(Landed(run, run[c].rows, ls), run[c].written, g, Folded(run, c, ls, g), Gone(run, c, ls));
    if Measured(run[c].written) {
      LosesNothingIff(Lost(run, c, ls, g), g, Total(Landed(run, run[c].rows, ls), g));
    }
  }

  // ---------- one late batch ----------

  /** What one late batch loses: if its upsert wins, what was absorbed since it was due and it does not fold itself;
      if it loses, what it deletes and nobody absorbed. */
  function Missing(run: seq<R.State>, c: nat, l: Landing): set<RowKey>
    requires c < |run| && Lands(run, l)
  {
    if l.wins then run[c].absorbed - Content(run, l) else Doomed(BatchOf(run, l)) - run[c].absorbed
  }

  /** A batch whose call failed first takes effect at `c`, whatever was done since it was due: stops, reruns, writes. */
  lemma OneLateBatch(run: seq<R.State>, c: nat, l: Landing, g: Group)
    requires R.IsRun(run) && c < |run| && Lands(run, l) && l.at <= c && Measured(run[c].written)
    ensures Total(Land(run[c].rows, BatchOf(run, l), l.wins), g) == Total(run[c].written, g) <==>
            BatchOf(run, l).g != g
            || forall k | k in run[c].written && k in Missing(run, c, l) && GroupOf(k) == g ::
                 run[c].written[k] == map[]
  {
    hide R.IsRun;
    hide Total;
    hide R.NextBatch;
    hide CanSend;
    var b, ls := BatchOf(run, l), [l];
    assert forall k | k in Doomed(b) :: GroupOf(k) == b.g;
    hide Doomed;
    P.RunGrows(run, l.at, c);
    assert ls[..0] == [];
    assert Gone(run, c, ls) == run[c].absorbed + Doomed(b);
    assert Folded(run, c, ls, g) == if l.wins && b.g == g then Content(run, l) else run[c].absorbed;
    assert Landed(run, run[c].rows, ls) == Land(Landed(run, run[c].rows, ls[..0]), b, l.wins);
    assert Informed(run, c, ls);
    LandingsKeepIff(run, c, c, ls, g);
    if b.g == g {
      assert Gone(run, c, ls) - Folded(run, c, ls, g) == Missing(run, c, l);
    }
  }

  // ---------- going on ----------

  /** When nothing is lost of any group, the rows are those of a compactor that stopped after absorbing all that is
      gone: every run from there keeps the answer. */
  lemma LandedGoesOn(run: seq<R.State>, c: nat, e: nat, ls: seq<Landing>)
    requires R.IsRun(run) && c <= e < |run| && run[e].written == run[c].written
    requires AllLand(run, ls) && (forall i | 0 <= i < |ls| :: ls[i].at <= e) && Informed(run, c, ls)
    requires forall g :: InGroup(Lost(run, c, ls, g), g) == map[]
    ensures R.Inv(R.State(Landed(run, run[c].rows, ls), run[c].written, Gone(run, c, ls), map[], R.Idle))
  {
    hide R.IsRun;
    hide AllLand;
    hide Informed;
    hide Landed;
    hide Gone;
    hide Lost;
    hide MadeOf;
    hide InGroup;
    var s := R.State(Landed(run, run[c].rows, ls), run[c].written, Gone(run, c, ls), map[], R.Idle);
    WrittenHaveKeys(run, c);
    hide R.Inv;
    GoneAreWritten(run, c, e, ls);
    forall g ensures MadeOf(s.rows, s.written, g, s.absorbed, s.absorbed) {
      assert InGroup(Lost(run, c, ls, g), g) == map[];
      GroupGoesOn(run, c, e, ls, g);
    }
    MadeOfStored(s);
  }

  lemma GroupGoesOn(run: seq<R.State>, c: nat, e: nat, ls: seq<Landing>, g: Group)
    requires R.IsRun(run) && c <= e < |run| && run[e].written == run[c].written
    requires AllLand(run, ls) && (forall i | 0 <= i < |ls| :: ls[i].at <= e) && Informed(run, c, ls)
    requires InGroup(Lost(run, c, ls, g), g) == map[]
    ensures MadeOf(Landed(run, run[c].rows, ls), run[c].written, g, Gone(run, c, ls), Gone(run, c, ls))
  {
    hide R.IsRun;
    hide MadeOf;
    hide InGroup;
    hide Informed;
    hide AllLand;
    LandingsMake(run, c, e, ls, g);
    FoldedAreGone(run, c, ls, g);
    NothingLost(Landed(run, run[c].rows, ls), run[c].written, g, Folded(run, c, ls, g), Gone(run, c, ls));
  }

  lemma WrittenHaveKeys(run: seq<R.State>, c: nat)
    requires R.IsRun(run) && c < |run|
    ensures forall k | k in run[c].written :: k.idem != ""
  {
    hide R.IsRun;
    R.RunKeeps(run, c);
  }

  lemma {:induction false} GoneAreWritten(run: seq<R.State>, c: nat, e: nat, ls: seq<Landing>)
    requires R.IsRun(run) && c <= e < |run| && run[e].written == run[c].written
    requires AllLand(run, ls) && forall i | 0 <= i < |ls| :: ls[i].at <= e
    ensures Gone(run, c, ls) <= run[c].written.Keys
  {
    hide R.IsRun;
    hide Lands;
    hide R.NextBatch;
    if ls == [] {
      R.RunKeeps(run, c);
    } else {
      hide R.Inv;
      GoneAreWritten(run, c, e, ls[..|ls| - 1]);
      ContentAt(run, c, e, ls[|ls| - 1]);
    }
  }

  lemma NothingLost(rows: Rows, written: Rows, g: Group, folded: set<RowKey>, gone: set<RowKey>)
    requires MadeOf(rows, written, g, folded, gone) && folded <= gone
             && InGroup(Among(written, gone - folded), g) == map[]
    ensures MadeOf(rows, written, g, gone, gone)
  {
    hide Fold;
    forall k | k in written && k in gone && GroupOf(k) == g ensures k in folded {
      assert k !in InGroup(Among(written, gone - folded), g);
    }
    assert InGroup(Among(written, folded), g) == InGroup(Among(written, gone), g);
  }

  lemma MadeOfStored(s: R.State)
    requires forall g :: MadeOf(s.rows, s.written, g, s.absorbed, s.absorbed)
    requires s.absorbed <= s.written.Keys && (forall k | k in s.written :: k.idem != "") && s.sent == map[]
             && s.comp.Idle?
    ensures R.Inv(s)
  {
    hide Fold;
    assert R.Absorbed(s) == Among(s.written, s.absorbed);
    assert R.Live(s) == Among(s.written, s.written.Keys - s.absorbed);
    forall k ensures k in FactRows(s.rows) <==> k in R.Live(s)
             ensures k in FactRows(s.rows) ==> FactRows(s.rows)[k] == R.Live(s)[k]
    {
      var g := GroupOf(k);
      assert MadeOf(s.rows, s.written, g, s.absorbed, s.absorbed);
      assert k in FactRows(s.rows) <==> k in InGroup(FactRows(s.rows), g);
      assert k in R.Live(s) <==> k in InGroup(R.Live(s), g);
    }
    assert FactRows(s.rows) == R.Live(s);
    forall g ensures Base(s.rows, g) == Total(R.Absorbed(s), g) {
      assert MadeOf(s.rows, s.written, g, s.absorbed, s.absorbed);
    }
  }

  // ---------- a late batch that loses a fact ----------

  /** A batch of one fact is due, its call fails and the compactor stops; a second fact is written and a rerun folds
      both. If the first batch lands now and its upsert wins, the second fact is lost; if it loses, nothing is. */
  lemma LateLoss(g: Group) returns (run: seq<R.State>, l: Landing)
    ensures R.IsRun(run) && |run| == 9 && l.wins && Lands(run, l) && l.at < 8 && BatchOf(run, l).g == g
    ensures run[8].written == map[KeyIn(g, "a") := P.OneFact(), KeyIn(g, "b") := P.OneFact()]
            && Measured(run[8].written)
    ensures Total(Land(run[8].rows, BatchOf(run, l), true), g) != Total(run[8].written, g)
    ensures Total(Land(run[8].rows, BatchOf(run, l), false), g) == Total(run[8].written, g)
  {
    hide Total;
    run := RerunRun(g);
    l := Landing(3, true);
    var a, b := KeyIn(g, "a"), KeyIn(g, "b");
    OneLateBatch(run, 8, l, g);
    OneLateBatch(run, 8, l.(wins := false), g);
    assert Missing(run, 8, l) == {b};
    assert Missing(run, 8, l.(wins := false)) == {};
    assert "n" in run[8].written[b] && GroupOf(b) == g;
  }

  lemma RerunRun(g: Group) returns (run: seq<R.State>)
    ensures R.IsRun(run) && |run| == 9 && Lands(run, Landing(3, true))
    ensures run[3].absorbed == {} && BatchOf(run, Landing(3, true)).g == g
    ensures Doomed(BatchOf(run, Landing(3, true))) == {KeyIn(g, "a")}
    ensures run[8].written == map[KeyIn(g, "a") := P.OneFact(), KeyIn(g, "b") := P.OneFact()]
    ensures run[8].absorbed == {KeyIn(g, "a"), KeyIn(g, "b")}
  {
    hide Grouped;
    hide Apply;
    hide Doomed;
    hide MergeAll;
    hide P.OneFact;
    var a, m := KeyIn(g, "a"), P.OneFact();
    var one, both: Rows := map[a := m], map[a := m, KeyIn(g, "b") := m];
    var r1, r2 := GroupRows(g, map[], ["a"], [m]), GroupRows(g, map[], ["a", "b"], [m, m]);
    var s0 := R.State(map[], map[], {}, map[], R.Idle);
    var s1 := s0.(rows := one, written := one);
    var s2, s3 := s1.(comp := R.Reading(one.Keys)), s1.(comp := R.Running([r1], 0, map[]));
    var s5 := s0.(rows := both, written := both);
    var s6, s7 := s5.(comp := R.Reading(both.Keys)), s5.(comp := R.Running([r2], 0, map[]));
    var b := R.NextBatch(s7.comp);
    var s8 := R.State(Apply(both, b), both, {} + Doomed(b), map[][b.g := b], R.Running([r2], 2, b.merged));
    assert R.Write(s0, s1, a, m) && R.BeginRead(s1, s2);
    OneGrouped(g, "a", m);
    ReadsWhole(s2, s3, [r1]);
    assert R.Stop(s3, s1);
    assert R.Write(s1, s5, KeyIn(g, "b"), m) && R.BeginRead(s5, s6);
    P.TwoGrouped(g, "a", "b", m);
    ReadsWhole(s6, s7, [r2]);
    P.TwoFolded(s7.comp, g, "a", "b", m);
    assert R.SendBatch(s7, s8);
    run := [s0, s1, s2, s3, s1, s5, s6, s7, s8];
    forall n | 0 <= n < |run| - 1 ensures R.Next(run[n], run[n + 1]) {
    }
    OneFolded(s3.comp, g, "a", m);
  }

  /** A scan that sees everything. */
  lemma ReadsWhole(s: R.State, s': R.State, groups: seq<GroupRows>)
    requires s.comp == R.Reading(s.rows.Keys) && Grouped(s.rows, groups) && groups != []
    requires s' == s.(comp := R.Running(groups, 0, groups[0].compacted))
    ensures R.EndRead(s, s', s.rows.Keys, groups)
  {
    assert (map k | k in s.rows && k in s.rows.Keys :: s.rows[k]) == s.rows;
  }

  lemma OneGrouped(g: Group, i: string, m: Partials)
    requires i != ""
    ensures Grouped(map[KeyIn(g, i) := m], [GroupRows(g, map[], [i], [m])])
  {
    var one, r := map[KeyIn(g, i) := m], GroupRows(g, map[], [i], [m]);
    assert ReadOf(one, r);
    assert [r][0].g == g;
  }

  lemma OneFolded(c: R.Compactor, g: Group, i: string, m: Partials)
    requires c == R.Running([GroupRows(g, map[], [i], [m])], 0, map[])
    ensures R.NextBatch(c).g == g && Doomed(R.NextBatch(c)) == {KeyIn(g, i)}
  {
    hide MergeAll;
    var b := R.NextBatch(c);
    assert b.keys == [i] && KeyIn(g, b.keys[0]) in Doomed(b);
  }
}

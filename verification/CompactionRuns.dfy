/** Every interleaving of one compactor with writers, crashes and retried batches. */
module CompactionRuns {
  import opened Partials
  import opened Compaction

  /** Where the compactor is. While reading, `must` are the rows it cannot miss: those there when the scan began.
      While running, `todo[0]` is the group being folded, up to `start`. */
  datatype Compactor =
    | Idle
    | Reading(must: set<RowKey>)
    | Running(todo: seq<GroupRows>, start: nat, merged: Partials)

  /** `written` are the distinct facts of the bucket, `absorbed` those already folded into a compacted row, `sent` the
      last batch sent for each group. */
  datatype State = State(rows: Rows, written: Rows, absorbed: set<RowKey>, sent: map<Group, Batch>, comp: Compactor)

  predicate Init(s: State) {
    s == State(map[], map[], {}, map[], Idle)
  }

  // ---------- the steps ----------

  /** A fact is written, for the first time or again, with the same measures and before it has been absorbed. */
  ghost predicate Write(s: State, s': State, k: RowKey, m: Partials) {
    && k.idem != "" && k !in s.absorbed && (k in s.written ==> s.written[k] == m)
    && s' == s.(rows := s.rows[k := m], written := s.written[k := m])
  }

  ghost predicate BeginRead(s: State, s': State) {
    s.comp.Idle? && s' == s.(comp := Reading(s.rows.Keys))
  }

  /** The scan ends having seen every row it began with, and any of those written meanwhile. */
  ghost predicate EndRead(s: State, s': State, seen: set<RowKey>, groups: seq<GroupRows>) {
    && s.comp.Reading? && s.comp.must <= seen <= s.rows.Keys
    && Grouped(map k | k in s.rows && k in seen :: s.rows[k], groups)
    && s' == s.(comp := Running(groups, 0, if groups == [] then map[] else groups[0].compacted))
  }

  function NextBatch(c: Compactor): Batch
    requires c.Running? && c.todo != [] && c.start <= |c.todo[0].keys| == |c.todo[0].facts|
  {
    var r := c.todo[0];
    var end := ChunkEnd(c.start, |r.keys|);
    Batch(r.g, MergeAll(c.merged, r.facts[c.start..end]), r.keys[c.start..end])
  }

  ghost predicate SendBatch(s: State, s': State) {
    var c := s.comp;
    && c.Running? && c.todo != [] && c.start < |c.todo[0].keys| == |c.todo[0].facts|
    && var b := NextBatch(c);
    && s' == State(Apply(s.rows, b), s.written, s.absorbed + Doomed(b), s.sent[b.g := b],
                   Running(c.todo, ChunkEnd(c.start, |c.todo[0].keys|), b.merged))
  }

  /** The last batch sent for a group is applied once more, whatever the compactor has done since: moved on to other
      groups, stopped, or started over. */
  ghost predicate RetryBatch(s: State, s': State, g: Group) {
    g in s.sent && s' == s.(rows := Apply(s.rows, s.sent[g]))
  }

  ghost predicate NextGroup(s: State, s': State) {
    var c := s.comp;
    && c.Running? && c.todo != [] && c.start >= |c.todo[0].keys|
    && var rest := c.todo[1..];
    && s' == s.(comp := Running(rest, 0, if rest == [] then map[] else rest[0].compacted))
  }

  /** The compactor finishes, fails or is killed, wherever it is; it may start over. */
  ghost predicate Stop(s: State, s': State) {
    s' == s.(comp := Idle)
  }

  ghost predicate Next(s: State, s': State) {
    || (exists k, m :: Write(s, s', k, m))
    || BeginRead(s, s')
    || (exists seen, groups :: EndRead(s, s', seen, groups))
    || SendBatch(s, s')
    || (exists g :: RetryBatch(s, s', g))
    || NextGroup(s, s')
    || Stop(s, s')
  }

  ghost predicate IsRun(run: seq<State>) {
    && run != [] && Init(run[0])
    && forall i | 0 <= i < |run| - 1 :: Next(run[i], run[i + 1])
  }

  // ---------- the invariant ----------

  ghost function Absorbed(s: State): Rows {
    map k | k in s.written && k in s.absorbed :: s.written[k]
  }

  function Live(s: State): Rows {
    map k | k in s.written && k !in s.absorbed :: s.written[k]
  }

  /** Per-fact rows are the facts not yet absorbed; each compacted row is the fold of those that were. */
  ghost predicate Stored(s: State) {
    && (forall k | k in s.written :: k.idem != "")
    && s.absorbed <= s.written.Keys
    && FactRows(s.rows) == Live(s)
    && (forall g :: Base(s.rows, g) == Total(Absorbed(s), g))
  }

  /** What the compactor still has to fold of a group is there as it was read, and it knows the group's base. */
  ghost predicate Pending(rows: Rows, r: GroupRows, start: nat, merged: Partials) {
    && |r.keys| == |r.facts| && start <= |r.keys|
    && Absorbable(rows, r.g, r.keys[start..], r.facts[start..])
    && merged == Base(rows, r.g)
  }

  /** The last batch left its group so that applying it again changes nothing, and no writer can change that. */
  ghost predicate Settled(s: State, b: Batch) {
    && Base(s.rows, b.g) == b.merged && KeyIn(b.g, "") in s.rows
    && Doomed(b) <= s.absorbed
  }

  ghost predicate AllSettled(s: State) {
    forall g | g in s.sent :: s.sent[g].g == g && Settled(s, s.sent[g])
  }

  ghost predicate CompactorKnows(s: State) {
    match s.comp
    case Idle => true
    case Reading(must) => must <= s.rows.Keys
    case Running(todo, start, merged) =>
      && DistinctGroups(todo)
      && (todo != [] ==> Pending(s.rows, todo[0], start, merged))
      && (forall i | 0 < i < |todo| :: Pending(s.rows, todo[i], 0, todo[i].compacted))
  }

  ghost predicate Inv(s: State) {
    Stored(s) && CompactorKnows(s) && AllSettled(s)
  }

  // ---------- each step keeps it ----------

  lemma WriteStored(s: State, s': State, k: RowKey, m: Partials)
    requires Stored(s) && Write(s, s', k, m)
    ensures Stored(s')
    ensures forall g :: Base(s'.rows, g) == Base(s.rows, g)
  {
    hide Fold;
    assert Absorbed(s') == Absorbed(s);
    FactsAfterWrite(s, s', k, m);
    forall g ensures Base(s'.rows, g) == Base(s.rows, g) {
      assert KeyIn(g, "") != k;
    }
  }

  lemma FactsAfterWrite(s: State, s': State, k: RowKey, m: Partials)
    requires FactRows(s.rows) == Live(s) && Write(s, s', k, m)
    ensures FactRows(s'.rows) == Live(s')
  {
    hide FactRows;
    hide Live;
    OneFactRow(s.rows, k, m);
    OneLiveFact(s, s', k, m);
  }

  lemma OneFactRow(rows: Rows, k: RowKey, m: Partials)
    requires k.idem != ""
    ensures FactRows(rows[k := m]) == FactRows(rows)[k := m]
  {
  }

  lemma OneLiveFact(s: State, s': State, k: RowKey, m: Partials)
    requires k !in s.absorbed && s'.written == s.written[k := m] && s'.absorbed == s.absorbed
    ensures Live(s') == Live(s)[k := m]
  {
  }

  lemma WritePending(s: State, k: RowKey, m: Partials, r: GroupRows, start: nat, merged: Partials)
    requires Stored(s) && Pending(s.rows, r, start, merged) && k.idem != "" && k !in s.absorbed
    requires k in s.written ==> s.written[k] == m
    ensures Pending(s.rows[k := m], r, start, merged)
  {
    if k in s.rows {
      assert k in FactRows(s.rows);
      assert s.rows[k := m] == s.rows;
    }
  }

  lemma WriteSettled(s: State, s': State, k: RowKey, m: Partials)
    requires AllSettled(s) && Write(s, s', k, m)
    ensures AllSettled(s')
  {
    forall g | g in s'.sent ensures s'.sent[g].g == g && Settled(s', s'.sent[g]) {
      assert Settled(s, s.sent[g]);
    }
  }

  lemma WriteKeeps(s: State, s': State, k: RowKey, m: Partials)
    requires Inv(s) && Write(s, s', k, m)
    ensures Inv(s')
  {
    WriteStored(s, s', k, m);
    WriteSettled(s, s', k, m);
    if s.comp.Running? {
      var c := s.comp;
      if c.todo != [] {
        WritePending(s, k, m, c.todo[0], c.start, c.merged);
      }
      forall i | 0 < i < |c.todo| ensures Pending(s'.rows, c.todo[i], 0, c.todo[i].compacted) {
        WritePending(s, k, m, c.todo[i], 0, c.todo[i].compacted);
      }
    }
  }

  lemma ReadIsPending(rows: Rows, seen: set<RowKey>, r: GroupRows)
    requires ReadOf(map k | k in rows && k in seen :: rows[k], r)
    requires KeyIn(r.g, "") in rows ==> KeyIn(r.g, "") in seen
    ensures Pending(rows, r, 0, r.compacted)
  {
    assert r.keys[0..] == r.keys && r.facts[0..] == r.facts;
  }

  /** A compacted row that exists was there when the scan began: only the compactor makes one. */
  ghost predicate CompactedSeen(s: State) {
    s.comp.Reading? ==> forall k | k in s.rows && k.idem == "" :: k in s.comp.must
  }

  lemma EndReadKeeps(s: State, s': State, seen: set<RowKey>, groups: seq<GroupRows>)
    requires Inv(s) && CompactedSeen(s) && EndRead(s, s', seen, groups)
    ensures Inv(s')
  {
    hide Stored;
    hide Pending;
    hide ReadOf;
    assert Stored(s') && AllSettled(s') by { StoredIgnoresCompactor(s, s'); }
    var view: Rows := map k | k in s.rows && k in seen :: s.rows[k];
    forall i | 0 <= i < |groups| ensures Pending(s.rows, groups[i], 0, groups[i].compacted) {
      assert ReadOf(view, groups[i]);
      ReadIsPending(s.rows, seen, groups[i]);
    }
  }

  lemma StoredIgnoresCompactor(s: State, s': State)
    requires Stored(s) && AllSettled(s) && s' == s.(comp := s'.comp)
    ensures Stored(s') && AllSettled(s')
  {
    assert Absorbed(s') == Absorbed(s) && Live(s') == Live(s);
    forall g | g in s'.sent ensures s'.sent[g].g == g && Settled(s', s'.sent[g]) {
      assert Settled(s, s.sent[g]);
    }
  }

  lemma BatchFacts(s: State, b: Batch, facts: seq<Partials>)
    requires Stored(s) && Absorbable(s.rows, b.g, b.keys, facts)
    ensures Doomed(b) <= s.written.Keys && Doomed(b) !! s.absorbed
    ensures (map k | k in s.rows && k in Doomed(b) :: s.rows[k])
            == map k | k in s.written && k in Doomed(b) :: s.written[k]
  {
    forall k | k in Doomed(b) ensures k in Live(s) && s.rows[k] == Live(s)[k] {
      var i :| 0 <= i < |b.keys| && KeyIn(b.g, b.keys[i]) == k;
      assert k in FactRows(s.rows);
    }
  }

  lemma BatchStored(s: State, s': State, b: Batch, facts: seq<Partials>)
    requires Stored(s) && Absorbable(s.rows, b.g, b.keys, facts) && b.merged == MergeAll(Base(s.rows, b.g), facts)
    requires s' == State(Apply(s.rows, b), s.written, s.absorbed + Doomed(b), s'.sent, s'.comp)
    ensures Stored(s')
  {
    hide MergeRow;
    hide MergeAll;
    hide Fold;
    BatchFacts(s, b, facts);
    FactsAfterBatch(s, s', b);
    forall g ensures Base(s'.rows, g) == Total(Absorbed(s'), g) {
      if g != b.g {
        OtherGroupAfterBatch(s, s', b, g);
      } else {
        BatchBase(s, s', b, facts);
      }
    }
  }

  lemma FactsAfterBatch(s: State, s': State, b: Batch)
    requires Stored(s) && s' == State(Apply(s.rows, b), s.written, s.absorbed + Doomed(b), s'.sent, s'.comp)
    requires Doomed(b) <= s.written.Keys && Doomed(b) !! s.absorbed
    ensures FactRows(s'.rows) == Live(s') && s'.absorbed <= s'.written.Keys
  {
    assert FactRows(s'.rows) == FactRows(s.rows) - Doomed(b);
    assert Live(s') == Live(s) - Doomed(b);
  }

  lemma OtherGroupAfterBatch(s: State, s': State, b: Batch, g: Group)
    requires g != b.g && s' == State(Apply(s.rows, b), s.written, s.absorbed + Doomed(b), s'.sent, s'.comp)
    ensures Base(s'.rows, g) == Base(s.rows, g)
    ensures InGroup(Absorbed(s'), g) == InGroup(Absorbed(s), g)
  {
    assert forall k | k in Doomed(b) :: GroupOf(k) == b.g;
    assert GroupOf(KeyIn(g, "")) == g;
  }

  lemma AbsorbedAfterBatch(s: State, s': State, b: Batch)
    requires s' == State(Apply(s.rows, b), s.written, s.absorbed + Doomed(b), s'.sent, s'.comp)
             && Doomed(b) !! s.absorbed
    ensures var before := InGroup(Absorbed(s), b.g);
            var more: Rows := map k | k in s.written && k in Doomed(b) :: s.written[k];
            InGroup(Absorbed(s'), b.g) == before + more && before.Keys !! more.Keys
  {
    assert forall k | k in Doomed(b) :: GroupOf(k) == b.g;
  }

  lemma BatchBase(s: State, s': State, b: Batch, facts: seq<Partials>)
    requires Stored(s) && Absorbable(s.rows, b.g, b.keys, facts) && b.merged == MergeAll(Base(s.rows, b.g), facts)
    requires s' == State(Apply(s.rows, b), s.written, s.absorbed + Doomed(b), s'.sent, s'.comp)
    ensures Base(s'.rows, b.g) == Total(Absorbed(s'), b.g)
  {
    hide MergeRow;
    hide MergeAll;
    hide Fold;
    hide Apply;
    hide Doomed;
    hide InGroup;
    hide Base;
    hide Absorbable;
    hide Absorbed;
    hide Live;
    hide FactRows;
    BatchFacts(s, b, facts);
    ChunkFold(s.rows, b.g, b.keys, facts, Base(s.rows, b.g));
    AbsorbedApart(s.rows, b.g, b.keys, facts, b.merged);
    AbsorbedAfterBatch(s, s', b);
    var before, more: Rows := InGroup(Absorbed(s), b.g), map k | k in s.written && k in Doomed(b) :: s.written[k];
    FoldUnion(before, more);
  }

  lemma BatchPending(rows: Rows, b: Batch, r: GroupRows, start: nat, merged: Partials)
    requires Pending(rows, r, start, merged) && r.g != b.g
    ensures Pending(Apply(rows, b), r, start, merged)
  {
    assert KeyIn(r.g, "") !in Doomed(b);
    forall i | 0 <= i < |r.keys[start..]| ensures KeyIn(r.g, r.keys[start..][i]) !in Doomed(b) {
      assert GroupOf(KeyIn(r.g, r.keys[start..][i])) == r.g;
    }
  }

  /** A batch settles its own group and leaves the others settled. */
  lemma BatchSettles(s: State, s': State, b: Batch)
    requires AllSettled(s)
    requires s' == State(Apply(s.rows, b), s.written, s.absorbed + Doomed(b), s.sent[b.g := b], s'.comp)
    requires Base(s'.rows, b.g) == b.merged && forall i | 0 <= i < |b.keys| :: b.keys[i] != ""
    ensures AllSettled(s')
  {
    forall g | g in s'.sent ensures s'.sent[g].g == g && Settled(s', s'.sent[g]) {
      assert KeyIn(g, "") !in Doomed(b);
      if g != b.g {
        assert Settled(s, s.sent[g]);
        assert KeyIn(g, "") != KeyIn(b.g, "");
      }
    }
  }

  lemma SendBatchKeeps(s: State, s': State)
    requires Inv(s) && SendBatch(s, s')
    ensures Inv(s')
  {
    hide Stored;
    hide MergeAll;
    hide AllSettled;
    hide Apply;
    var c := s.comp;
    var r, b, end := c.todo[0], NextBatch(c), ChunkEnd(c.start, |c.todo[0].keys|);
    var keys, facts := r.keys[c.start..], r.facts[c.start..];
    assert keys[..end - c.start] == b.keys && facts[..end - c.start] == r.facts[c.start..end];
    SliceAbsorbable(s.rows, r.g, keys, facts, end - c.start);
    BatchStored(s, s', b, r.facts[c.start..end]);
    BatchLeaves(s.rows, r.g, keys, facts, end - c.start, b.merged);
    assert keys[end - c.start..] == r.keys[end..] && facts[end - c.start..] == r.facts[end..];
    forall i | 0 < i < |c.todo| ensures Pending(s'.rows, c.todo[i], 0, c.todo[i].compacted) {
      BatchPending(s.rows, b, c.todo[i], 0, c.todo[i].compacted);
    }
    BatchSettles(s, s', b);
  }

  /** Applying the last batch of a group again changes nothing. */
  lemma RetryIsIdle(s: State, s': State, g: Group)
    requires Inv(s) && RetryBatch(s, s', g)
    ensures s' == s
  {
    var b := s.sent[g];
    assert Settled(s, b);
    forall k | k in Doomed(b) ensures k !in s.rows {
      var i :| 0 <= i < |b.keys| && KeyIn(b.g, b.keys[i]) == k;
      assert k in s.written && k !in Live(s);
      assert k !in FactRows(s.rows);
    }
    assert Apply(s.rows, b) == s.rows;
  }

  lemma NextGroupKeeps(s: State, s': State)
    requires Inv(s) && NextGroup(s, s')
    ensures Inv(s')
  {
    hide Stored;
    hide Pending;
    assert Stored(s') && AllSettled(s') by { StoredIgnoresCompactor(s, s'); }
    var rest := s.comp.todo[1..];
    assert forall i | 0 <= i < |rest| :: rest[i] == s.comp.todo[i + 1];
    forall i | 0 <= i < |rest| ensures Pending(s.rows, rest[i], 0, rest[i].compacted) {
      assert Pending(s.rows, s.comp.todo[i + 1], 0, s.comp.todo[i + 1].compacted);
    }
  }

  lemma NextKeeps(s: State, s': State)
    requires Inv(s) && CompactedSeen(s) && Next(s, s')
    ensures Inv(s') && CompactedSeen(s')
  {
    hide Stored;
    hide CompactorKnows;
    hide Grouped;
    hide Apply;
    if k, m :| Write(s, s', k, m) {
      WriteKeeps(s, s', k, m);
    } else if seen, groups :| EndRead(s, s', seen, groups) {
      EndReadKeeps(s, s', seen, groups);
    } else if SendBatch(s, s') {
      SendBatchKeeps(s, s');
    } else if g :| RetryBatch(s, s', g) {
      RetryIsIdle(s, s', g);
    } else if NextGroup(s, s') {
      NextGroupKeeps(s, s');
    } else {
      BeginOrStopKeeps(s, s');
    }
  }

  lemma BeginOrStopKeeps(s: State, s': State)
    requires Inv(s) && (BeginRead(s, s') || Stop(s, s'))
    ensures Inv(s') && CompactedSeen(s')
  {
    StoredIgnoresCompactor(s, s');
  }

  lemma {:induction false} RunKeeps(run: seq<State>, i: nat)
    requires IsRun(run) && i < |run|
    ensures Inv(run[i]) && CompactedSeen(run[i])
  {
    hide Next;
    if i == 0 {
      InitHolds(run[0]);
    } else {
      RunKeeps(run, i - 1);
      assert Next(run[i - 1], run[i - 1 + 1]);
      NextKeeps(run[i - 1], run[i]);
    }
  }

  lemma InitHolds(s: State)
    requires Init(s)
    ensures Inv(s) && CompactedSeen(s)
  {
    forall g ensures Base(s.rows, g) == Total(Absorbed(s), g) {
      FoldEmpty(InGroup(Absorbed(s), g));
    }
  }

  // ---------- the theorem ----------

  lemma StoredAnswers(s: State, g: Group)
    requires Stored(s)
    ensures Total(s.rows, g) == Total(s.written, g)
  {
    hide MergeRow;
    hide Fold;
    hide InGroup;
    hide Absorbed;
    hide Live;
    TotalSplits(s.rows, g);
    GoneOrLive(s, g);
    FoldUnion(InGroup(Absorbed(s), g), InGroup(Live(s), g));
  }

  lemma GoneOrLive(s: State, g: Group)
    ensures var gone, live := InGroup(Absorbed(s), g), InGroup(Live(s), g);
            gone.Keys !! live.Keys && InGroup(s.written, g) == gone + live
  {
  }

  /** At every moment of every run, whatever was interleaved, each group's rows merge to the summary of the distinct
      facts written. */
  lemma CompactionPreservesAnswers(run: seq<State>, i: nat, g: Group)
    requires IsRun(run) && i < |run|
    ensures Total(run[i].rows, g) == Total(run[i].written, g)
  {
    RunKeeps(run, i);
    StoredAnswers(run[i], g);
  }

  /** Why compaction waits for the redelivery horizon: a fact written again after it was absorbed is counted again, so
      the answer survives exactly when the fact carries no observation. */
  lemma LateRedelivery(s: State, k: RowKey)
    requires Inv(s) && k in s.absorbed
    ensures var m, g, late := s.written[k], GroupOf(k), s.rows[k := s.written[k]];
            && Total(late, g) == MergeRow(m, Total(s.written, g))
            && (Total(late, g) == Total(s.written, g) <==> forall n | n in m :: m[n].count == 0)
  {
    hide MergeRow;
    hide Fold;
    var m, g := s.written[k], GroupOf(k);
    assert k !in FactRows(s.rows) && k !in s.rows;
    assert InGroup(s.rows[k := m], g) == InGroup(s.rows, g)[k := m];
    FoldAdd(InGroup(s.rows, g), k, m);
    StoredAnswers(s, g);
    FoldRemove(InGroup(s.written, g), k);
    RowMergedTwice(m, Fold(InGroup(s.written, g) - {k}));
  }

  /** Merging a row in once more changes nothing exactly when it has no observations. */
  lemma RowMergedTwice(m: Partials, rest: Partials)
    ensures var t := MergeRow(m, rest); MergeRow(m, t) == t <==> forall n | n in m :: m[n].count == 0
  {
    hide Merge;
    var t := MergeRow(m, rest);
    var twice := MergeRow(m, t);
    assert twice.Keys == t.Keys;
    forall n | n in m ensures twice[n] == t[n] <==> m[n].count == 0 {
      MergeGrows(m[n], t[n]);
    }
    if forall n | n in m :: m[n].count == 0 {
      assert forall n | n in t :: twice[n] == t[n];
    }
  }

  lemma MergeGrows(p: Summary, o: Summary)
    ensures Merge(p, o) == o <==> p.count == 0
  {
  }
}

/** Compaction of one closed bucket: what a batch does, and the loops that send them. */
module Compaction {
  import opened Partials

  const COMPACT_CHUNK := 29

  type Dims = map<string, string>

  /** A clustering key. The idempotency key "" is the compacted row's. The dimensions stand for their own canonical
      rendering. */
  datatype RowKey = RowKey(ts: int, dims: Dims, idem: string)
  datatype Group = Group(ts: int, dims: Dims)

  type Rows = map<RowKey, Partials>

  function GroupOf(k: RowKey): Group { Group(k.ts, k.dims) }
  function KeyIn(g: Group, idem: string): RowKey { RowKey(g.ts, g.dims, idem) }

  /** The rows of one group. */
  function InGroup(rows: Rows, g: Group): Rows {
    map k | k in rows && GroupOf(k) == g :: rows[k]
  }

  /** What every query sees of a group: all its rows merged. */
  ghost function Total(rows: Rows, g: Group): Partials {
    Fold(InGroup(rows, g))
  }

  /** The compacted row's partials, none before the first compaction. */
  function Base(rows: Rows, g: Group): Partials {
    if KeyIn(g, "") in rows then rows[KeyIn(g, "")] else map[]
  }

  function FactRows(rows: Rows): Rows {
    map k | k in rows && k.idem != "" :: rows[k]
  }

  /** A group's total is its compacted row merged with its per-fact rows. */
  lemma TotalSplits(rows: Rows, g: Group)
    ensures Total(rows, g) == MergeRow(Base(rows, g), Total(FactRows(rows), g))
  {
    hide MergeRow;
    var all, facts, c := InGroup(rows, g), InGroup(FactRows(rows), g), KeyIn(g, "");
    if c in rows {
      assert all == facts[c := rows[c]];
      FoldAdd(facts, c, rows[c]);
    } else {
      assert all == facts;
      MergeRowUnit(Fold(facts));
    }
  }

  // ---------- reading a partition ----------

  /** One (ts, dims) group as the compactor read it. */
  datatype GroupRows = GroupRows(g: Group, compacted: Partials, keys: seq<string>, facts: seq<Partials>)

  /** What was read of one group is the rows of `view` in it. */
  ghost predicate ReadOf(view: Rows, r: GroupRows) {
    && r.compacted == Base(view, r.g)
    && |r.keys| == |r.facts|
    && (forall i, j | 0 <= i < j < |r.keys| :: r.keys[i] != r.keys[j])
    && (forall i | 0 <= i < |r.keys| ::
          r.keys[i] != "" && KeyIn(r.g, r.keys[i]) in view && view[KeyIn(r.g, r.keys[i])] == r.facts[i])
    && (forall k | k in view && GroupOf(k) == r.g && k.idem != "" :: k.idem in r.keys)
  }

  ghost predicate DistinctGroups(groups: seq<GroupRows>) {
    forall i, j | 0 <= i < j < |groups| :: groups[i].g != groups[j].g
  }

  ghost predicate HasGroup(groups: seq<GroupRows>, g: Group) {
    exists i :: 0 <= i < |groups| && groups[i].g == g
  }

  /** `groups` is `view` grouped: each group once, with exactly its rows. */
  ghost predicate Grouped(view: Rows, groups: seq<GroupRows>) {
    && DistinctGroups(groups)
    && (forall i | 0 <= i < |groups| :: ReadOf(view, groups[i]))
    && (forall k | k in view :: HasGroup(groups, GroupOf(k)))
  }

  function AddRead(r: GroupRows, idem: string, row: Partials): (r': GroupRows)
    ensures r'.g == r.g
  {
    if idem == "" then r.(compacted := row) else r.(keys := r.keys + [idem], facts := r.facts + [row])
  }

  lemma AddReadOf(view: Rows, r: GroupRows, k: RowKey, row: Partials)
    requires ReadOf(view, r) && k !in view && GroupOf(k) == r.g
    ensures ReadOf(view[k := row], AddRead(r, k.idem, row))
  {
    assert k == KeyIn(r.g, k.idem);
    if k.idem != "" {
      AddFactRow(view, r, k, row);
    } else {
      assert AddRead(r, k.idem, row).keys == r.keys;
    }
  }

  lemma AddFactRow(view: Rows, r: GroupRows, k: RowKey, row: Partials)
    requires ReadOf(view, r) && k !in view && k == KeyIn(r.g, k.idem) && k.idem != ""
    ensures ReadOf(view[k := row], r.(keys := r.keys + [k.idem], facts := r.facts + [row]))
  {
    var keys := r.keys + [k.idem];
    forall i, j | 0 <= i < j < |keys| ensures keys[i] != keys[j] {
      if j == |r.keys| {
        assert KeyIn(r.g, r.keys[i]) in view;
      }
    }
    forall q | q in view[k := row] && GroupOf(q) == r.g && q.idem != "" ensures q.idem in keys {
      if q == k {
        assert keys[|r.keys|] == k.idem;
      } else {
        assert q.idem in r.keys;
      }
    }
  }

  lemma OtherReadOf(view: Rows, r: GroupRows, k: RowKey, row: Partials)
    requires ReadOf(view, r) && GroupOf(k) != r.g
    ensures ReadOf(view[k := row], r)
  {
  }

  /** The index finds each group met so far. */
  ghost predicate Indexed(groups: seq<GroupRows>, index: map<Group, nat>) {
    && (forall g | g in index :: index[g] < |groups| && groups[index[g]].g == g)
    && (forall j | 0 <= j < |groups| :: groups[j].g in index && index[groups[j].g] == j)
  }

  /** The scan: rows arrive in clustering order and are grouped by an index of the groups met so far. */
  method ReadPartition(rows: Rows, order: seq<RowKey>) returns (groups: seq<GroupRows>)
    requires rows.Keys == set k | k in order
    requires forall i, j | 0 <= i < j < |order| :: order[i] != order[j]
    ensures Grouped(rows, groups)
  {
    hide Grouped;
    hide Indexed;
    groups := [];
    var index: map<Group, nat> := map[];
    NothingGrouped();
    ghost var view: Rows := map[];
    for i := 0 to |order|
      invariant view.Keys == set k | k in order[..i]
      invariant forall k | k in view :: k in rows && view[k] == rows[k]
      invariant Indexed(groups, index) && Grouped(view, groups)
    {
      var k := order[i];
      assert k in rows && k !in view;
      groups, index := ReadRow(groups, index, k, rows[k], view);
      view := view[k := rows[k]];
      assert order[..i + 1] == order[..i] + [k];
    }
    assert order[..|order|] == order;
    assert view == rows;
  }

  method ReadRow(groups: seq<GroupRows>, index: map<Group, nat>, k: RowKey, row: Partials, ghost view: Rows)
    returns (groups': seq<GroupRows>, index': map<Group, nat>)
    requires Indexed(groups, index) && Grouped(view, groups) && k !in view
    ensures Indexed(groups', index') && Grouped(view[k := row], groups')
  {
    hide Grouped;
    hide AddRead;
    groups', index' := groups, index;
    var g := GroupOf(k);
    if g !in index' {
      index' := index'[g := |groups'|];
      NewGroup(view, groups', g);
      groups' := groups' + [GroupRows(g, map[], [], [])];
    }
    GroupGrows(view, groups', index'[g], k, row);
    groups' := groups'[index'[g] := AddRead(groups'[index'[g]], k.idem, row)];
  }

  lemma NothingGrouped()
    ensures Grouped(map[], []) && Indexed([], map[])
  {
  }

  lemma NewGroup(view: Rows, groups: seq<GroupRows>, g: Group)
    requires Grouped(view, groups) && forall j | 0 <= j < |groups| :: groups[j].g != g
    ensures Grouped(view, groups + [GroupRows(g, map[], [], [])])
  {
    var more := groups + [GroupRows(g, map[], [], [])];
    forall k | k in view ensures HasGroup(more, GroupOf(k)) && GroupOf(k) != g {
      var i :| 0 <= i < |groups| && groups[i].g == GroupOf(k);
      assert more[i].g == GroupOf(k);
    }
    assert KeyIn(g, "") in view ==> GroupOf(KeyIn(g, "")) != g;
  }

  lemma GroupGrows(view: Rows, groups: seq<GroupRows>, at: nat, k: RowKey, row: Partials)
    requires Grouped(view, groups) && at < |groups| && groups[at].g == GroupOf(k) && k !in view
    ensures Grouped(view[k := row], groups[at := AddRead(groups[at], k.idem, row)])
  {
    hide ReadOf;
    var groups' := groups[at := AddRead(groups[at], k.idem, row)];
    AddReadOf(view, groups[at], k, row);
    forall i | 0 <= i < |groups'| ensures ReadOf(view[k := row], groups'[i]) {
      if i != at {
        OtherReadOf(view, groups[i], k, row);
      }
    }
    forall q | q in view[k := row] ensures HasGroup(groups', GroupOf(q)) {
      var i :| 0 <= i < |groups| && groups[i].g == GroupOf(q);
      assert groups'[i].g == GroupOf(q);
    }
  }

  // ---------- one batch ----------

  /** An atomic batch: upsert the group's merged row, delete the per-fact rows it absorbed. */
  datatype Batch = Batch(g: Group, merged: Partials, keys: seq<string>)

  function Doomed(b: Batch): set<RowKey> {
    set i | 0 <= i < |b.keys| :: KeyIn(b.g, b.keys[i])
  }

  function Apply(rows: Rows, b: Batch): Rows {
    rows[KeyIn(b.g, "") := b.merged] - Doomed(b)
  }

  function ChunkEnd(start: nat, n: nat): nat {
    if start + COMPACT_CHUNK < n then start + COMPACT_CHUNK else n
  }

  /** The rows a batch may absorb: distinct, present as read, and not the compacted row. */
  ghost predicate Absorbable(rows: Rows, g: Group, keys: seq<string>, facts: seq<Partials>) {
    && |keys| == |facts|
    && (forall i, j | 0 <= i < j < |keys| :: keys[i] != keys[j])
    && (forall i | 0 <= i < |keys| :: keys[i] != "" && KeyIn(g, keys[i]) in rows && rows[KeyIn(g, keys[i])] == facts[i])
  }

  /** Merging a chunk into the base is merging the fold of its rows. */
  lemma ChunkFold(rows: Rows, g: Group, keys: seq<string>, facts: seq<Partials>, base: Partials)
    requires Absorbable(rows, g, keys, facts)
    ensures var b := Batch(g, MergeAll(base, facts), keys);
            b.merged == MergeRow(base, Fold(map k | k in rows && k in Doomed(b) :: rows[k]))
  {
    var ks := seq(|keys|, i requires 0 <= i < |keys| => KeyIn(g, keys[i]));
    var b := Batch(g, MergeAll(base, facts), keys);
    var gone := map k | k in rows && k in Doomed(b) :: rows[k];
    forall k ensures k in gone.Keys <==> k in ks {
      if k in gone {
        var i :| 0 <= i < |keys| && KeyIn(g, keys[i]) == k;
        assert ks[i] == k;
      }
      if k in ks {
        var i :| 0 <= i < |ks| && ks[i] == k;
        assert KeyIn(g, b.keys[i]) in Doomed(b);
      }
    }
    forall i, j | 0 <= i < j < |ks| ensures ks[i] != ks[j] {
      assert ks[i].idem == keys[i] && ks[j].idem == keys[j];
    }
    MergeAllIsFold(base, gone, ks, facts);
  }

  lemma AbsorbedApart(rows: Rows, g: Group, keys: seq<string>, facts: seq<Partials>, merged: Partials)
    requires Absorbable(rows, g, keys, facts)
    ensures var b := Batch(g, merged, keys);
            var gone, left := map k | k in rows && k in Doomed(b) :: rows[k], InGroup(FactRows(Apply(rows, b)), g);
            gone.Keys !! left.Keys && InGroup(FactRows(rows), g) == gone + left
    ensures Base(Apply(rows, Batch(g, merged, keys)), g) == merged
  {
    var b := Batch(g, merged, keys);
    forall k | k in Doomed(b) ensures k in rows && k.idem != "" && GroupOf(k) == g {
      var i :| 0 <= i < |keys| && KeyIn(g, b.keys[i]) == k;
    }
    DoomedApart(rows, b);
  }

  lemma DoomedApart(rows: Rows, b: Batch)
    requires forall k | k in Doomed(b) :: k in rows && k.idem != "" && GroupOf(k) == b.g
    ensures var gone, left := map k | k in rows && k in Doomed(b) :: rows[k], InGroup(FactRows(Apply(rows, b)), b.g);
            gone.Keys !! left.Keys && InGroup(FactRows(rows), b.g) == gone + left
    ensures Base(Apply(rows, b), b.g) == b.merged
  {
    hide Doomed;
  }

  lemma OtherGroupsKept(rows: Rows, b: Batch, h: Group)
    requires h != b.g
    ensures InGroup(Apply(rows, b), h) == InGroup(rows, h)
  {
  }

  /** No batch changes what any query sees. */
  lemma BatchPreserves(rows: Rows, g: Group, keys: seq<string>, facts: seq<Partials>, h: Group)
    requires Absorbable(rows, g, keys, facts)
    ensures Total(Apply(rows, Batch(g, MergeAll(Base(rows, g), facts), keys)), h) == Total(rows, h)
  {
    hide MergeRow;
    hide MergeAll;
    hide Fold;
    hide InGroup;
    hide FactRows;
    hide Apply;
    hide Base;
    hide Absorbable;
    hide Doomed;
    var b := Batch(g, MergeAll(Base(rows, g), facts), keys);
    var rows' := Apply(rows, b);
    if h != g {
      OtherGroupsKept(rows, b, h);
    } else {
      ChunkFold(rows, g, keys, facts, Base(rows, g));
      TotalSplits(rows, g);
      TotalSplits(rows', g);
      AbsorbedApart(rows, g, keys, facts, b.merged);
      var gone, left := map k | k in rows && k in Doomed(b) :: rows[k], InGroup(FactRows(rows'), g);
      FoldUnion(gone, left);
      MergeRowAssociates(Base(rows, g), Fold(gone), Fold(left));
    }
  }

  // ---------- the compactor, alone ----------

  /** One bucket's partition and how many batches were sent to it. */
  class Partition {
    var rows: Rows
    var batches: nat

    constructor ()
      ensures rows == map[] && batches == 0
    {
      rows, batches := map[], 0;
    }

    method ExecuteBatch(b: Batch)
      modifies this
      ensures rows == Apply(old(rows), b) && batches == old(batches) + 1
    {
      rows, batches := Apply(rows, b), batches + 1;
    }

    /** Folds a group's per-fact rows into its compacted row, a chunk per batch. */
    method CompactGroup(r: GroupRows)
      requires ReadOf(rows, r)
      modifies this
      ensures SameTotals(rows, old(rows)) && SameOutside(rows, old(rows), r.g)
      ensures forall k | k in rows && GroupOf(k) == r.g :: k.idem == ""
      ensures r.keys == [] ==> rows == old(rows) && batches == old(batches)
      ensures r.keys != [] ==> batches > old(batches)
    {
      hide SameTotals;
      hide SameOutside;
      hide ToFold;
      var merged := r.compacted;
      var start := 0;
      ReadToFold(rows, r);
      while start < |r.keys|
        invariant 0 <= start <= |r.keys| && ToFold(rows, r, start, merged)
        invariant SameTotals(rows, old(rows)) && SameOutside(rows, old(rows), r.g)
        invariant start == 0 ==> rows == old(rows) && batches == old(batches)
        invariant start > 0 ==> batches > old(batches)
      {
        var end := ChunkEnd(start, |r.keys|);
        var next := MergePartials(merged, r.facts[start..end]);
        ChunkDone(old(rows), rows, r, start, end, merged);
        ExecuteBatch(Batch(r.g, next, r.keys[start..end]));
        merged := next;
        start := end;
      }
      AllFolded(rows, r, merged);
    }

    /** Reads the partition and compacts it group by group. Every answer is as before; one row per group is left; and a
        partition that is already compact gets no batch. */
    method Compact(order: seq<RowKey>)
      requires rows.Keys == set k | k in order
      requires forall i, j | 0 <= i < j < |order| :: order[i] != order[j]
      modifies this
      ensures forall h :: Total(rows, h) == Total(old(rows), h)
      ensures forall k | k in rows :: k.idem == ""
      ensures batches == old(batches) <==> forall k | k in old(rows) :: k.idem == ""
      ensures batches == old(batches) ==> rows == old(rows)
    {
      hide ReadOf;
      hide Total;
      var groups := ReadPartition(rows, order);
      for i := 0 to |groups|
        invariant Ahead(rows, groups, i)
        invariant SameTotals(rows, old(rows))
        invariant batches >= old(batches)
        invariant batches == old(batches) <==> forall j | 0 <= j < i :: groups[j].keys == []
        invariant batches == old(batches) ==> rows == old(rows)
      {
        label before:
        CompactGroup(groups[i]);
        GroupDone(old@before(rows), rows, groups, i);
      }
      CompactIffNoKeys(old(rows), groups);
    }
  }

  ghost predicate SameTotals(rows: Rows, before: Rows) {
    forall h :: Total(rows, h) == Total(before, h)
  }

  ghost predicate SameOutside(rows: Rows, before: Rows, g: Group) {
    forall k | GroupOf(k) != g :: (k in rows <==> k in before) && (k in rows ==> rows[k] == before[k])
  }

  /** From `start` on the group is there as read, and `merged` is its compacted row. */
  ghost predicate ToFold(rows: Rows, r: GroupRows, start: nat, merged: Partials) {
    && |r.keys| == |r.facts| && start <= |r.keys| && merged == Base(rows, r.g)
    && Absorbable(rows, r.g, r.keys[start..], r.facts[start..])
    && (forall k | k in rows && GroupOf(k) == r.g && k.idem != "" :: k.idem in r.keys[start..])
  }

  lemma ReadToFold(rows: Rows, r: GroupRows)
    requires ReadOf(rows, r)
    ensures |r.keys| == |r.facts| && ToFold(rows, r, 0, r.compacted) && SameTotals(rows, rows)
            && SameOutside(rows, rows, r.g)
  {
    assert r.keys[0..] == r.keys && r.facts[0..] == r.facts;
  }

  lemma AllFolded(rows: Rows, r: GroupRows, merged: Partials)
    requires ToFold(rows, r, |r.keys|, merged)
    ensures forall k | k in rows && GroupOf(k) == r.g :: k.idem == ""
  {
    assert r.keys[|r.keys|..] == [];
  }

  /** One chunk further. */
  lemma ChunkDone(first: Rows, rows: Rows, r: GroupRows, start: nat, end: nat, merged: Partials)
    requires start <= end <= |r.keys| == |r.facts| && ToFold(rows, r, start, merged)
    requires SameTotals(rows, first) && SameOutside(rows, first, r.g)
    ensures var next := MergeAll(merged, r.facts[start..end]);
            var rows' := Apply(rows, Batch(r.g, next, r.keys[start..end]));
            ToFold(rows', r, end, next) && SameTotals(rows', first) && SameOutside(rows', first, r.g)
  {
    hide Total;
    hide MergeAll;
    hide Absorbable;
    hide Apply;
    hide Base;
    var keys, facts, n := r.keys[start..], r.facts[start..], end - start;
    var next := MergeAll(merged, r.facts[start..end]);
    SliceAbsorbable(rows, r.g, keys, facts, n);
    assert keys[..n] == r.keys[start..end] && facts[..n] == r.facts[start..end];
    assert keys[n..] == r.keys[end..] && facts[n..] == r.facts[end..];
    forall h ensures Total(Apply(rows, Batch(r.g, next, r.keys[start..end])), h) == Total(rows, h) {
      BatchPreserves(rows, r.g, r.keys[start..end], r.facts[start..end], h);
    }
    BatchLeaves(rows, r.g, keys, facts, n, next);
  }

  /** The groups from `i` on are there as read, and hold all per-fact rows left. */
  ghost predicate Ahead(rows: Rows, groups: seq<GroupRows>, i: nat) {
    && i <= |groups| && DistinctGroups(groups)
    && (forall j | i <= j < |groups| :: ReadOf(rows, groups[j]))
    && (forall k | k in rows && k.idem != "" :: HasGroup(groups[i..], GroupOf(k)))
  }

  lemma GroupDone(before: Rows, rows: Rows, groups: seq<GroupRows>, i: nat)
    requires Ahead(before, groups, i) && i < |groups| && SameOutside(rows, before, groups[i].g)
    requires forall k | k in rows && GroupOf(k) == groups[i].g :: k.idem == ""
    ensures Ahead(rows, groups, i + 1)
  {
    hide ReadOf;
    forall j | i < j < |groups| ensures ReadOf(rows, groups[j]) {
      UntouchedRead(before, rows, groups[i].g, groups[j]);
    }
    forall k | k in rows && k.idem != "" ensures HasGroup(groups[i + 1..], GroupOf(k)) {
      assert GroupOf(k) != groups[i].g && k in before;
      var j :| 0 <= j < |groups[i..]| && groups[i..][j].g == GroupOf(k);
      assert groups[i + 1..][j - 1] == groups[i..][j];
    }
  }

  lemma SliceAbsorbable(rows: Rows, g: Group, keys: seq<string>, facts: seq<Partials>, n: nat)
    requires Absorbable(rows, g, keys, facts) && n <= |keys|
    ensures Absorbable(rows, g, keys[..n], facts[..n])
  {
  }

  /** After a batch the rest of the group is still there as read, and the merged row is the new base. */
  lemma BatchLeaves(rows: Rows, g: Group, keys: seq<string>, facts: seq<Partials>, n: nat, merged: Partials)
    requires Absorbable(rows, g, keys, facts) && n <= |keys|
    ensures var rows' := Apply(rows, Batch(g, merged, keys[..n]));
            && Base(rows', g) == merged
            && Absorbable(rows', g, keys[n..], facts[n..])
            && SameOutside(rows', rows, g)
            && ((forall k | k in rows && GroupOf(k) == g && k.idem != "" :: k.idem in keys)
                ==> forall k | k in rows' && GroupOf(k) == g && k.idem != "" :: k.idem in keys[n..])
  {
    var b := Batch(g, merged, keys[..n]);
    var rows' := Apply(rows, b);
    forall i | 0 <= i < |keys[n..]|
      ensures KeyIn(g, keys[n..][i]) in rows' && rows'[KeyIn(g, keys[n..][i])] == facts[n..][i]
    {
      assert keys[n..][i] == keys[n + i];
      assert KeyIn(g, keys[n + i]) !in Doomed(b);
    }
    if forall k | k in rows && GroupOf(k) == g && k.idem != "" :: k.idem in keys {
      hide Absorbable;
      RestIsListed(rows, g, keys, n, merged);
    }
  }

  lemma RestIsListed(rows: Rows, g: Group, keys: seq<string>, n: nat, merged: Partials)
    requires n <= |keys| && forall k | k in rows && GroupOf(k) == g && k.idem != "" :: k.idem in keys
    ensures forall k | k in Apply(rows, Batch(g, merged, keys[..n])) && GroupOf(k) == g && k.idem != "" ::
              k.idem in keys[n..]
  {
    var b := Batch(g, merged, keys[..n]);
    forall k | k in Apply(rows, b) && GroupOf(k) == g && k.idem != "" ensures k.idem in keys[n..] {
      assert k in rows;
      var i :| 0 <= i < |keys| && keys[i] == k.idem;
      assert forall j | 0 <= j < n :: KeyIn(g, b.keys[j]) in Doomed(b);
      assert keys[n..][i - n] == k.idem;
    }
  }

  lemma UntouchedRead(before: Rows, after: Rows, g: Group, r: GroupRows)
    requires ReadOf(before, r) && r.g != g
    requires SameOutside(after, before, g)
    ensures ReadOf(after, r)
  {
    assert GroupOf(KeyIn(r.g, "")) == r.g;
    forall i | 0 <= i < |r.keys| ensures KeyIn(r.g, r.keys[i]) in after && after[KeyIn(r.g, r.keys[i])] == r.facts[i] {
      assert GroupOf(KeyIn(r.g, r.keys[i])) == r.g;
    }
  }

  lemma CompactIffNoKeys(rows: Rows, groups: seq<GroupRows>)
    requires Grouped(rows, groups)
    ensures (forall k | k in rows :: k.idem == "") <==> forall j | 0 <= j < |groups| :: groups[j].keys == []
  {
    if j :| 0 <= j < |groups| && groups[j].keys != [] {
      assert ReadOf(rows, groups[j]);
      var k := KeyIn(groups[j].g, groups[j].keys[0]);
      assert k in rows && k.idem != "";
    }
    if k :| k in rows && k.idem != "" {
      assert HasGroup(groups, GroupOf(k));
      var i :| 0 <= i < |groups| && groups[i].g == GroupOf(k);
      assert ReadOf(rows, groups[i]) && groups[i].keys != [];
    }
  }
}

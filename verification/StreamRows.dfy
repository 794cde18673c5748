/** The rows a stream's pages add up to, for one stream and for one resumed by another. */
module StreamRows {
  import opened Wrappers
  import opened Sequences
  import opened Analytics
  import opened Residual
  import C = Compaction
  import S = Stream

  /** The rows of a list of pages. */
  function RowsOf(w: S.World, ps: seq<S.Pos>): seq<ResultRow>
    requires forall i | 0 <= i < |ps| :: S.InRange(w, ps[i])
  {
    if ps == [] then []
    else
      assert S.InRange(w, ps[0]);
      w.pages[ps[0].bucket][ps[0].page].rows + RowsOf(w, ps[1..])
  }

  lemma {:induction false} RowsOfConcat(w: S.World, a: seq<S.Pos>, b: seq<S.Pos>)
    requires forall i | 0 <= i < |a| :: S.InRange(w, a[i])
    requires forall i | 0 <= i < |b| :: S.InRange(w, b[i])
    ensures (forall i | 0 <= i < |a + b| :: S.InRange(w, (a + b)[i])) && RowsOf(w, a + b) == RowsOf(w, a) + RowsOf(w, b)
  {
    if a == [] {
      assert a + b == b;
    } else {
      var first := w.pages[a[0].bucket][a[0].page].rows;
      hide S.InRange;
      RowsOfConcat(w, a[1..], b);
      assert (a + b)[1..] == a[1..] + b && (a + b)[0] == a[0];
      assert RowsOf(w, a + b) == first + RowsOf(w, a[1..] + b) && RowsOf(w, a) == first + RowsOf(w, a[1..]);
      hide RowsOf;
    }
  }

  function PageRows(pages: seq<S.Page>): seq<ResultRow> {
    if pages == [] then [] else pages[0].rows + PageRows(pages[1..])
  }

  /** The rows of each bucket from `b` on. */
  function BucketRows(w: S.World, b: nat): seq<seq<ResultRow>>
    decreases |w.pages| - b
  {
    if b >= |w.pages| then [] else [PageRows(w.pages[b])] + BucketRows(w, b + 1)
  }

  ghost predicate NoErrors(w: S.World) {
    forall b, k | 0 <= b < |w.pages| && 0 <= k < |w.pages[b]| :: w.pages[b][k].err.None?
  }

  /** The rows of the pages from a position on: those left of its bucket, then bucket after bucket. */
  function RowsFrom(w: S.World, at: S.Pos): seq<ResultRow>
    requires at.bucket < |w.pages| ==> at.page <= |w.pages[at.bucket]|
  {
    if at.bucket < |w.pages| then PageRows(w.pages[at.bucket][at.page..]) + Flatten(BucketRows(w, at.bucket + 1))
    else []
  }

  lemma NextBucketRows(w: S.World, b: nat)
    requires b < |w.pages|
    ensures RowsFrom(w, S.Pos(b, |w.pages[b]|)) == RowsFrom(w, S.Pos(b + 1, 0))
  {
    hide Flatten;
    hide BucketRows;
    FlatBuckets(w, b + 1);
  }

  lemma NextPageRows(w: S.World, at: S.Pos)
    requires S.InRange(w, at)
    ensures RowsFrom(w, at) == w.pages[at.bucket][at.page].rows + RowsFrom(w, S.Pos(at.bucket, at.page + 1))
  {
    hide Flatten;
    hide BucketRows;
    PageRowsFrom(w.pages[at.bucket], at.page);
    hide PageRows;
  }

  /** The plain read is every page's rows, bucket after bucket. */
  lemma {:induction false} SequentialRows(w: S.World, at: S.Pos)
    requires NoErrors(w) && (at.bucket < |w.pages| ==> at.page <= |w.pages[at.bucket]|)
    ensures forall i | 0 <= i < |S.Sequential(w, at)| :: S.InRange(w, S.Sequential(w, at)[i])
    ensures RowsOf(w, S.Sequential(w, at)) == RowsFrom(w, at)
    decreases |w.pages| - at.bucket, if at.bucket < |w.pages| then |w.pages[at.bucket]| - at.page else 0
  {
    hide S.Sequential;
    hide RowsOf;
    hide NoErrors;
    ReadsOn(w, at);
    if at.bucket < |w.pages| {
      hide RowsFrom;
      if at.page == |w.pages[at.bucket]| {
        SequentialRows(w, S.Pos(at.bucket + 1, 0));
        NextBucketRows(w, at.bucket);
      } else {
        SequentialRows(w, S.Pos(at.bucket, at.page + 1));
        FirstPageRows(w, at, S.Sequential(w, S.Pos(at.bucket, at.page + 1)));
        NextPageRows(w, at);
      }
    }
  }

  /** One step of the plain read. */
  lemma ReadsOn(w: S.World, at: S.Pos)
    requires NoErrors(w) && (at.bucket < |w.pages| ==> at.page <= |w.pages[at.bucket]|)
    ensures S.Sequential(w, at)
            == if at.bucket >= |w.pages| then []
               else if at.page == |w.pages[at.bucket]| then S.Sequential(w, S.Pos(at.bucket + 1, 0))
               else [at] + S.Sequential(w, S.Pos(at.bucket, at.page + 1))
    ensures RowsOf(w, []) == []
  {
  }

  lemma PageRowsFrom(pages: seq<S.Page>, k: nat)
    requires k < |pages|
    ensures PageRows(pages[k..]) == pages[k].rows + PageRows(pages[k + 1..])
  {
    assert pages[k..][1..] == pages[k + 1..];
  }

  lemma FlatBuckets(w: S.World, b: nat)
    ensures Flatten(BucketRows(w, b))
            == if b < |w.pages| then PageRows(w.pages[b][0..]) + Flatten(BucketRows(w, b + 1)) else []
  {
    if b < |w.pages| {
      assert w.pages[b][0..] == w.pages[b];
      assert BucketRows(w, b)[1..] == BucketRows(w, b + 1);
    }
  }

  lemma FirstPageRows(w: S.World, at: S.Pos, rest: seq<S.Pos>)
    requires S.InRange(w, at) && forall i | 0 <= i < |rest| :: S.InRange(w, rest[i])
    ensures (forall i | 0 <= i < |[at] + rest| :: S.InRange(w, ([at] + rest)[i]))
    ensures RowsOf(w, [at] + rest) == w.pages[at.bucket][at.page].rows + RowsOf(w, rest)
  {
    assert ([at] + rest)[1..] == rest;
  }

  /** The pages a query's fetches return: each bucket's rows, filtered and projected, cut into pages anyhow. */
  ghost predicate Serves(tx: Texts, p: Plan, w: S.World, parts: seq<C.Rows>, scans: seq<seq<C.RowKey>>) {
    && |w.pages| == |parts| == |scans| && NoErrors(w)
    && forall i | 0 <= i < |parts| ::
         Scans(scans[i], parts[i]) && PageRows(w.pages[i]) == ReadBucket(tx, p, parts[i], scans[i])
  }

  lemma {:induction false} BucketRowsAre(w: S.World, b: nat, i: nat)
    requires b + i < |w.pages|
    ensures |BucketRows(w, b)| == |w.pages| - b && BucketRows(w, b)[i] == PageRows(w.pages[b + i])
    decreases |w.pages| - b
  {
    if i > 0 {
      BucketRowsAre(w, b + 1, i - 1);
    } else if b + 1 < |w.pages| {
      BucketRowsAre(w, b + 1, 0);
    }
  }

  lemma {:induction false} ReadAllIsFlat(tx: Texts, p: Plan, parts: seq<C.Rows>, scans: seq<seq<C.RowKey>>,
                                         rows: seq<seq<ResultRow>>)
    requires |parts| == |scans| == |rows|
    requires forall i | 0 <= i < |parts| ::
               Scans(scans[i], parts[i]) && rows[i] == ReadBucket(tx, p, parts[i], scans[i])
    ensures ReadAll(tx, p, parts, scans) == Flatten(rows)
    decreases |parts|
  {
    if parts != [] {
      var n := |parts| - 1;
      ReadAllIsFlat(tx, p, parts[..n], scans[..n], rows[..n]);
      assert rows == rows[..n] + [rows[n]];
      FlattenAppend(rows[..n], rows[n]);
    }
  }

  /** The plain read of a query's pages is its read of the buckets. */
  lemma PlainReadIsReadAll(tx: Texts, p: Plan, w: S.World, parts: seq<C.Rows>, scans: seq<seq<C.RowKey>>)
    requires Serves(tx, p, w, parts, scans)
    ensures forall i | 0 <= i < |S.Sequential(w, S.Pos(0, 0))| :: S.InRange(w, S.Sequential(w, S.Pos(0, 0))[i])
    ensures RowsOf(w, S.Sequential(w, S.Pos(0, 0))) == ReadAll(tx, p, parts, scans)
  {
    hide S.Sequential;
    hide RowsOf;
    hide ReadBucket;
    hide ReadAll;
    SequentialRows(w, S.Pos(0, 0));
    var rows := BucketRows(w, 0);
    if parts != [] {
      assert w.pages[0][0..] == w.pages[0];
      assert Flatten(rows) == rows[0] + Flatten(rows[1..]);
      assert rows[1..] == BucketRows(w, 1);
      BucketRowsAre(w, 0, 0);
    }
    forall i | 0 <= i < |parts| ensures rows[i] == ReadBucket(tx, p, parts[i], scans[i]) {
      BucketRowsAre(w, 0, i);
    }
    ReadAllIsFlat(tx, p, parts, scans, rows);
  }

  // ---------- one stream taken up by another ----------

  /** The page at `q` is before the cut. */
  predicate Precedes(q: S.Pos, cut: S.Pos) {
    q.bucket < cut.bucket || (q.bucket == cut.bucket && q.page < cut.page)
  }

  /** Two worlds agree on the pages before a cut: those the first stream delivered. */
  ghost predicate AgreeBefore(w: S.World, u: S.World, cut: S.Pos) {
    && |w.pages| == |u.pages|
    && (forall i | 0 <= i < |u.pages| && i < cut.bucket :: w.pages[i] == u.pages[i])
    && (cut.bucket < |u.pages| ==>
          && cut.page <= |w.pages[cut.bucket]| && cut.page <= |u.pages[cut.bucket]|
          && w.pages[cut.bucket][..cut.page] == u.pages[cut.bucket][..cut.page])
  }

  /** Two worlds agree on the pages from a cut on: those the second stream reads. */
  ghost predicate AgreeFrom(w: S.World, u: S.World, cut: S.Pos) {
    && |w.pages| == |u.pages|
    && (forall i | 0 <= i < |u.pages| && i > cut.bucket :: w.pages[i] == u.pages[i])
    && (cut.bucket < |u.pages| ==>
          && cut.page <= |w.pages[cut.bucket]| == |u.pages[cut.bucket]|
          && w.pages[cut.bucket][cut.page..] == u.pages[cut.bucket][cut.page..])
  }

  /** The pages of the plain read from `q` up to a cut. */
  function Between(w: S.World, q: S.Pos, cut: S.Pos): seq<S.Pos>
    decreases |w.pages| - q.bucket, if q.bucket < |w.pages| then |w.pages[q.bucket]| - q.page else 0
  {
    if !Precedes(q, cut) || q.bucket >= |w.pages| then []
    else if q.page >= |w.pages[q.bucket]| then Between(w, S.Pos(q.bucket + 1, 0), cut)
    else [q] + Between(w, S.Pos(q.bucket, q.page + 1), cut)
  }

  predicate InBounds(w: S.World, q: S.Pos) {
    && q.bucket <= |w.pages| && (q.bucket < |w.pages| ==> q.page <= |w.pages[q.bucket]|)
    && (q.bucket == |w.pages| ==> q.page == 0)
  }

  ghost predicate NoErrorsBefore(w: S.World, cut: S.Pos) {
    forall b: nat, k: nat | b < |w.pages| && k < |w.pages[b]| && Precedes(S.Pos(b, k), cut) :: w.pages[b][k].err.None?
  }

  /** The next position, past a page or past the end of a bucket, and the page passed. */
  function Onward(w: S.World, q: S.Pos): (seq<S.Pos>, S.Pos)
    requires q.bucket < |w.pages|
  {
    if q.page >= |w.pages[q.bucket]| then ([], S.Pos(q.bucket + 1, 0)) else ([q], S.Pos(q.bucket, q.page + 1))
  }

  lemma SequentialOn(w: S.World, q: S.Pos)
    requires q.bucket < |w.pages| && (q.page < |w.pages[q.bucket]| ==> w.pages[q.bucket][q.page].err.None?)
    ensures var (here, next) := Onward(w, q); S.Sequential(w, q) == here + S.Sequential(w, next)
  {
  }

  lemma BetweenOn(w: S.World, q: S.Pos, cut: S.Pos)
    requires Precedes(q, cut) && q.bucket < |w.pages|
    ensures var (here, next) := Onward(w, q); Between(w, q, cut) == here + Between(w, next, cut)
  {
  }

  /** The plain read goes through the pages up to a cut and then on from it. */
  lemma {:induction false} SplitAtCut(w: S.World, q: S.Pos, cut: S.Pos)
    requires NoErrorsBefore(w, cut) && InBounds(w, q) && InBounds(w, cut) && (Precedes(q, cut) || q == cut)
    ensures S.Sequential(w, q) == Between(w, q, cut) + S.Sequential(w, cut)
    decreases |w.pages| - q.bucket, if q.bucket < |w.pages| then |w.pages[q.bucket]| - q.page else 0
  {
    hide S.Sequential;
    if q == cut {
      assert Between(w, q, cut) == [];
    } else {
      hide Between;
      SequentialOn(w, q);
      BetweenOn(w, q, cut);
      var (here, next) := Onward(w, q);
      SplitAtCut(w, next, cut);
      var left, right := Between(w, next, cut), S.Sequential(w, cut);
      assert here + (left + right) == here + left + right;
    }
  }

  /** Worlds that agree before a cut have the same pages up to it, with the same rows. */
  lemma {:induction false} SameBetween(w: S.World, u: S.World, q: S.Pos, cut: S.Pos)
    requires AgreeBefore(w, u, cut)
    ensures Between(w, q, cut) == Between(u, q, cut)
    ensures forall i | 0 <= i < |Between(u, q, cut)| ::
              S.InRange(w, Between(u, q, cut)[i]) && S.InRange(u, Between(u, q, cut)[i])
              && SamePage(w, u, Between(u, q, cut)[i])
    decreases |u.pages| - q.bucket, if q.bucket < |u.pages| then |u.pages[q.bucket]| - q.page else 0
  {
    if Precedes(q, cut) && q.bucket < |u.pages| {
      if q.bucket == cut.bucket {
        assert w.pages[q.bucket][..cut.page][q.page] == u.pages[q.bucket][..cut.page][q.page];
        SameBetween(w, u, S.Pos(q.bucket, q.page + 1), cut);
      } else if q.page >= |u.pages[q.bucket]| {
        SameBetween(w, u, S.Pos(q.bucket + 1, 0), cut);
      } else {
        SameBetween(w, u, S.Pos(q.bucket, q.page + 1), cut);
      }
    }
  }

  ghost predicate SamePage(w: S.World, u: S.World, q: S.Pos)
    requires S.InRange(w, q) && S.InRange(u, q)
  {
    w.pages[q.bucket][q.page] == u.pages[q.bucket][q.page]
  }

  /** Worlds that agree from a cut on have the same plain read from it, with the same rows. */
  lemma {:induction false} SameFrom(w: S.World, u: S.World, q: S.Pos, cut: S.Pos)
    requires AgreeFrom(w, u, cut) && !Precedes(q, cut)
    ensures S.Sequential(w, q) == S.Sequential(u, q)
    ensures forall i | 0 <= i < |S.Sequential(u, q)| ::
              S.InRange(w, S.Sequential(u, q)[i]) && S.InRange(u, S.Sequential(u, q)[i])
              && SamePage(w, u, S.Sequential(u, q)[i])
    decreases |u.pages| - q.bucket, if q.bucket < |u.pages| then |u.pages[q.bucket]| - q.page else 0
  {
    if q.bucket < |u.pages| {
      if q.page >= |u.pages[q.bucket]| {
        SameFrom(w, u, S.Pos(q.bucket + 1, 0), cut);
      } else {
        if q.bucket == cut.bucket {
          assert w.pages[q.bucket][cut.page..][q.page - cut.page] == u.pages[q.bucket][cut.page..][q.page - cut.page];
        }
        SameFrom(w, u, S.Pos(q.bucket, q.page + 1), cut);
      }
    }
  }

  lemma {:induction false} SameRows(w: S.World, u: S.World, ps: seq<S.Pos>)
    requires forall i | 0 <= i < |ps| :: S.InRange(w, ps[i]) && S.InRange(u, ps[i]) && SamePage(w, u, ps[i])
    ensures RowsOf(w, ps) == RowsOf(u, ps)
  {
    if ps != [] {
      assert SamePage(w, u, ps[0]);
      SameRows(w, u, ps[1..]);
    }
  }

  lemma SameTail<T>(a: seq<T>, b: seq<T>, tail: seq<T>)
    requires a + tail == b + tail
    ensures a == b
  {
    assert |a| == |b|;
    assert a == (a + tail)[..|a|] && b == (b + tail)[..|b|];
  }

  /** What a first stream delivered of `w` up to its token, and a second of `w'` from it, are together the rows of the
      plain read of any `u` that agrees with each where it was read. */
  lemma TakenUp(w: S.World, w': S.World, u: S.World, cut: S.Pos, first: seq<S.Pos>, second: seq<S.Pos>)
    requires NoErrors(u) && AgreeBefore(w, u, cut) && AgreeFrom(w', u, cut) && InBounds(w, cut) && InBounds(u, cut)
    requires InBounds(w, S.Pos(0, 0)) && InBounds(u, S.Pos(0, 0))
    requires first + S.Sequential(w, cut) == S.Sequential(w, S.Pos(0, 0)) && second == S.Sequential(w', cut)
    ensures forall i | 0 <= i < |first| :: S.InRange(w, first[i])
    ensures forall i | 0 <= i < |second| :: S.InRange(w', second[i])
    ensures forall i | 0 <= i < |S.Sequential(u, S.Pos(0, 0))| :: S.InRange(u, S.Sequential(u, S.Pos(0, 0))[i])
    ensures RowsOf(w, first) + RowsOf(w', second) == RowsOf(u, S.Sequential(u, S.Pos(0, 0)))
  {
    hide S.Sequential;
    hide Between;
    hide RowsOf;
    var start := S.Pos(0, 0);
    ErrorFreeBefore(w, u, cut);
    SplitAtCut(w, start, cut);
    SplitAtCut(u, start, cut);
    SameTail(first, Between(w, start, cut), S.Sequential(w, cut));
    SameBetween(w, u, start, cut);
    SameFrom(w', u, cut, cut);
    SameRows(w, u, first);
    SameRows(w', u, second);
    RowsOfConcat(u, first, second);
  }

  lemma ErrorFreeBefore(w: S.World, u: S.World, cut: S.Pos)
    requires NoErrors(u) && AgreeBefore(w, u, cut)
    ensures NoErrorsBefore(w, cut) && NoErrorsBefore(u, cut)
  {
    forall b: nat, k: nat | b < |w.pages| && k < |w.pages[b]| && Precedes(S.Pos(b, k), cut)
      ensures w.pages[b][k].err.None?
    {
      if b == cut.bucket {
        assert w.pages[b][..cut.page][k] == u.pages[b][..cut.page][k];
      }
    }
  }
}

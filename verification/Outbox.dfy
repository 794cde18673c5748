/** The transactional-outbox relay: one run over a claim, its backoff, and rows across runs. */
module Outbox {
  import opened Arithmetic
  import opened Sequences
  import opened Wrappers

  const INT64_MAX := 0x7fff_ffff_ffff_ffff

  /** Durations are nanoseconds. */
  datatype RelayConfig = RelayConfig(
    batchSize: int, sendBatch: int, concurrency: int, maxAttempts: int, baseBackoff: int, maxBackoff: int,
    parkOnPermanent: bool)

  /** What Validate accepts, of values that fit their machine types. */
  predicate ConfigOk(c: RelayConfig) {
    && c.batchSize > 0 && c.sendBatch > 0 && c.concurrency > 0 && c.maxAttempts > 0
    && 0 < c.baseBackoff <= c.maxBackoff <= INT64_MAX
  }

  // ---------- backoff ----------

  function Unbounded(base: int, attempts: int): int {
    base * Pow2(if attempts < 0 then 0 else attempts)
  }

  /** The cap of the next wait. It is min(base * 2^n, max), but for one case: the code compares with max / 2, so with an
      odd max it jumps from (max - 1) / 2 straight to max. */
  function BackoffOf(c: RelayConfig, attempts: int): int {
    if attempts >= 1 && Unbounded(c.baseBackoff, attempts) == c.maxBackoff - 1 then c.maxBackoff
    else Min(Unbounded(c.baseBackoff, attempts), c.maxBackoff)
  }

  method Backoff(c: RelayConfig, attempts: int) returns (d: int)
    requires ConfigOk(c)
    ensures c.baseBackoff <= d <= c.maxBackoff
    ensures d == BackoffOf(c, attempts)
    ensures d == Min(Unbounded(c.baseBackoff, attempts), c.maxBackoff)
            <==> !(attempts >= 1 && Unbounded(c.baseBackoff, attempts) == c.maxBackoff - 1)
  {
    d := c.baseBackoff;
    var n := if attempts < 0 then 0 else attempts;
    for i := 0 to n
      invariant d == c.baseBackoff * Pow2(i)
      invariant c.baseBackoff <= d <= c.maxBackoff
      invariant i > 0 ==> d <= c.maxBackoff - 2
    {
      if d >= c.maxBackoff / 2 {
        Reached(c, i, n, d);
        return c.maxBackoff;
      }
      assert d * 2 <= INT64_MAX;
      d := d * 2;
    }
    d := Min(d, c.maxBackoff);
  }

  /** The least failing input: one doubling of 1 under a cap of 3 waits 3, not 2. */
  lemma BackoffOvershoots(c: RelayConfig)
    requires ConfigOk(c) && c.baseBackoff == 1 && c.maxBackoff == 3
    ensures BackoffOf(c, 1) == 3 && Min(Unbounded(c.baseBackoff, 1), c.maxBackoff) == 2
  {
    assert Pow2(1) == 2 * Pow2(0);
  }

  /** Once half the cap is reached, every later power is within one of the cap or beyond it. */
  lemma Reached(c: RelayConfig, i: nat, n: nat, d: int)
    requires ConfigOk(c) && i < n && d == c.baseBackoff * Pow2(i) && d >= c.maxBackoff / 2
    ensures c.baseBackoff * Pow2(n) >= c.maxBackoff - 1
  {
    Pow2Grows(i + 1, n);
    Doubled(c.baseBackoff, Pow2(i), Pow2(n));
  }

  lemma Doubled(b: int, p: int, q: int)
    requires b > 0 && 2 * p <= q
    ensures 2 * (b * p) <= b * q
  {
    assert b * (q - 2 * p) >= 0;
  }

  // ---------- one row ----------

  datatype SendResult = Delivered | Failed(contextError: bool, permanent: bool)

  datatype Record = Record(id: int, attempts: int)

  /** What is recorded for a row: `LeftLeased` is nothing at all. */
  datatype Outcome = MarkSent | Park | Retry(cap: int) | LeftLeased

  predicate Interrupted(ended: bool, r: SendResult) {
    r.Failed? && ended && r.contextError
  }

  function OutcomeOf(c: RelayConfig, attempts: int, ended: bool, r: SendResult): Outcome {
    if Interrupted(ended, r) then LeftLeased
    else if r.Delivered? then MarkSent
    else if attempts >= c.maxAttempts || (c.parkOnPermanent && r.permanent) then Park
    else Retry(BackoffOf(c, attempts))
  }

  datatype Status = Pending | Sent | Parked

  datatype Row = Row(status: Status, attempts: nat, wait: int)

  type Table = map<int, Row>

  /** One store update; a retry only touches a pending row. */
  function Recorded(row: Row, o: Outcome): Row {
    match o
    case MarkSent => row.(status := Sent)
    case Park => row.(status := Parked)
    case Retry(cap) => if row.status.Pending? then row.(wait := cap) else row
    case LeftLeased => row
  }

  /** The update reaches the table unless the store refuses it. */
  function Update(t: Table, rec: Record, o: Outcome, refused: set<int>): Table {
    if rec.id in t && rec.id !in refused then t[rec.id := Recorded(t[rec.id], o)] else t
  }

  // ---------- chunks ----------

  /** The sends of a claim, from index `start` on. */
  function ChunksFrom(recs: seq<Record>, size: nat, start: nat): seq<seq<Record>>
    requires size > 0
    decreases |recs| - start
  {
    if start >= |recs| then [] else [ChunkAt(recs, size, start)] + ChunksFrom(recs, size, start + size)
  }

  /** The chunks partition the claim: nothing lost, nothing repeated, in order, every chunk full but perhaps the
      last. */
  lemma {:induction false} ChunksPartition(recs: seq<Record>, size: nat, start: nat)
    requires size > 0 && start <= |recs|
    ensures var cs := ChunksFrom(recs, size, start);
            && Flatten(cs) == recs[start..]
            && (forall i | 0 <= i < |cs| :: 0 < |cs[i]| <= size && (i < |cs| - 1 ==> |cs[i]| == size))
    decreases |recs| - start
  {
    if start < |recs| {
      var c := ChunkAt(recs, size, start);
      if start + size < |recs| {
        ChunksPartition(recs, size, start + size);
        assert recs[start..] == c + recs[start + size..];
      } else {
        assert ChunksFrom(recs, size, start + size) == [];
        assert Flatten([c]) == c + Flatten([c][1..]);
      }
    }
  }

  function ChunkAt(recs: seq<Record>, size: nat, start: nat): seq<Record>
    requires start < |recs|
  {
    recs[start..if start + size < |recs| then start + size else |recs|]
  }

  /** One result per record of a chunk; a sink that returns another number of results failed for all of them. */
  function Results(send: seq<Record> -> seq<SendResult>, chunk: seq<Record>): (rs: seq<SendResult>)
    ensures |rs| == |chunk|
  {
    var rs := send(chunk);
    if |rs| == |chunk| then rs else seq(|chunk|, i => Failed(false, false))
  }

  // ---------- one run ----------

  /** What the world does during a run: what the sink answers, when the run's context had ended, which updates the store
      refuses. */
  datatype World = World(send: seq<Record> -> seq<SendResult>, ended: int -> bool, refused: set<int>)

  /** The result of record `i`: its chunk is the one that starts at the multiple of the chunk size before it. */
  function ResultAt(c: RelayConfig, w: World, recs: seq<Record>, i: nat): SendResult
    requires ConfigOk(c) && i < |recs|
  {
    var start := i - i % c.sendBatch;
    Results(w.send, ChunkAt(recs, c.sendBatch, start))[i - start]
  }

  /** Exactly one outcome per claimed record. */
  function OutcomeAt(c: RelayConfig, w: World, recs: seq<Record>, i: nat): Outcome
    requires ConfigOk(c) && i < |recs|
  {
    OutcomeOf(c, recs[i].attempts, w.ended(recs[i].id), ResultAt(c, w, recs, i))
  }

  /** The table after the updates of `order`, first to last. */
  function After(c: RelayConfig, w: World, recs: seq<Record>, t: Table, order: seq<nat>): Table
    requires ConfigOk(c) && forall k | 0 <= k < |order| :: order[k] < |recs|
  {
    if order == [] then t
    else
      var i := order[|order| - 1];
      Update(After(c, w, recs, t, order[..|order| - 1]), recs[i], OutcomeAt(c, w, recs, i), w.refused)
  }

  ghost predicate DistinctIds(recs: seq<Record>) {
    forall i, j | 0 <= i < j < |recs| :: recs[i].id != recs[j].id
  }

  ghost predicate NoRepeat(order: seq<nat>) {
    forall i, j | 0 <= i < j < |order| :: order[i] != order[j]
  }

  /** Whatever order the concurrent deliveries finish in, each row gets its own outcome and no other row changes. */
  lemma {:induction false} EachRowItsOutcome(c: RelayConfig, w: World, recs: seq<Record>, t: Table, order: seq<nat>,
                                             id: int)
    requires ConfigOk(c) && DistinctIds(recs) && NoRepeat(order)
    requires forall k | 0 <= k < |order| :: order[k] < |recs|
    ensures id in After(c, w, recs, t, order) <==> id in t
    ensures id in t ==>
              (forall k | 0 <= k < |order| && recs[order[k]].id == id && id !in w.refused ::
                 After(c, w, recs, t, order)[id] == Recorded(t[id], OutcomeAt(c, w, recs, order[k])))
              && ((id in w.refused || forall k | 0 <= k < |order| :: recs[order[k]].id != id) ==>
                    After(c, w, recs, t, order)[id] == t[id])
    decreases |order|
  {
    hide OutcomeAt;
    if order != [] {
      var n := |order| - 1;
      EachRowItsOutcome(c, w, recs, t, order[..n], id);
      var i := order[n];
      if recs[i].id == id {
        forall k | 0 <= k < n ensures recs[order[k]].id != id {
          var a, b := if order[k] < i then order[k] else i, if order[k] < i then i else order[k];
          assert order[k] != order[n];
          assert recs[a].id != recs[b].id;
        }
        assert forall k | 0 <= k < n :: recs[order[..n][k]].id != id;
      } else {
        assert forall k | 0 <= k < n :: order[..n][k] == order[k];
      }
    }
  }

  /** So every complete order leaves the same table. */
  lemma OrderIsImmaterial(c: RelayConfig, w: World, recs: seq<Record>, t: Table, a: seq<nat>, b: seq<nat>)
    requires ConfigOk(c) && DistinctIds(recs) && NoRepeat(a) && NoRepeat(b)
    requires forall i: nat :: i in a <==> i < |recs|
    requires forall i: nat :: i in b <==> i < |recs|
    ensures (forall k | 0 <= k < |a| :: a[k] < |recs|) && (forall k | 0 <= k < |b| :: b[k] < |recs|)
    ensures After(c, w, recs, t, a) == After(c, w, recs, t, b)
  {
    assert forall k | 0 <= k < |a| :: a[k] in a;
    assert forall k | 0 <= k < |b| :: b[k] in b;
    var x, y := After(c, w, recs, t, a), After(c, w, recs, t, b);
    forall id ensures id in x <==> id in y {
      EachRowItsOutcome(c, w, recs, t, a, id);
      EachRowItsOutcome(c, w, recs, t, b, id);
    }
    forall id | id in x ensures x[id] == y[id] {
      EachRowItsOutcome(c, w, recs, t, a, id);
      EachRowItsOutcome(c, w, recs, t, b, id);
      if i: nat :| i < |recs| && recs[i].id == id {
        assert i in a && i in b;
        var k :| 0 <= k < |a| && a[k] == i;
        var l :| 0 <= l < |b| && b[l] == i;
        assert recs[a[k]].id == id && recs[b[l]].id == id;
      }
    }
  }

  function UpTo(n: nat): (s: seq<nat>)
    ensures |s| == n && forall i | 0 <= i < n :: s[i] == i
  {
    seq(n, i => i)
  }

  class Relay {
    const cfg: RelayConfig
    var rows: Table

    constructor (cfg: RelayConfig)
      ensures this.cfg == cfg && rows == map[]
    {
      this.cfg, rows := cfg, map[];
    }

    /** Records one row's outcome; an error of the store is reported, not raised. */
    method Finalize(rec: Record, r: SendResult, w: World) returns (failed: bool)
      requires ConfigOk(cfg)
      requires !Interrupted(w.ended(rec.id), r)
      modifies this
      ensures rows == Update(old(rows), rec, OutcomeOf(cfg, rec.attempts, w.ended(rec.id), r), w.refused)
      ensures failed <==> rec.id in w.refused
    {
      var o;
      if r.Delivered? {
        o := MarkSent;
      } else if rec.attempts >= cfg.maxAttempts || (cfg.parkOnPermanent && r.permanent) {
        o := Park;
      } else {
        var cap := Backoff(cfg, rec.attempts);
        o := Retry(cap);
      }
      rows := Update(rows, rec, o, w.refused);
      failed := rec.id in w.refused;
    }

    /** Sends one chunk and finalizes its rows; an interrupted row is left to its lease. */
    method Deliver(recs: seq<Record>, start: nat, chunk: seq<Record>, w: World, was: bool, ghost t: Table)
      returns (failed: bool)
      requires ConfigOk(cfg) && start < |recs| && OnBoundary(start, cfg.sendBatch)
               && chunk == ChunkAt(recs, cfg.sendBatch, start)
      requires rows == After(cfg, w, recs, t, UpTo(start))
      modifies this
      ensures rows == After(cfg, w, recs, t, UpTo(start + |chunk|))
      ensures failed <==> was || AnyFails(cfg, w, recs, start, start + |chunk|)
    {
      hide BackoffOf;
      hide ResultAt;
      hide Results;
      hide After;
      var results := Results(w.send, chunk);
      failed := was;
      for i := 0 to |chunk|
        invariant rows == After(cfg, w, recs, t, UpTo(start + i))
        invariant failed <==> was || AnyFails(cfg, w, recs, start, start + i)
      {
        ResultOfChunk(cfg, w, recs, start, i);
        OneMore(cfg, w, recs, t, start + i);
        assert recs[start + i] == chunk[i];
        if !Interrupted(w.ended(chunk[i].id), results[i]) {
          var bad := Finalize(chunk[i], results[i], w);
          failed := failed || bad;
        }
      }
    }

    /** Delivers a claim: every row gets exactly its one outcome. `sent` are the sends; they run one after the other
        here, see OrderIsImmaterial. */
    method DeliverAll(recs: seq<Record>, w: World) returns (failed: bool, ghost sent: seq<seq<Record>>)
      requires ConfigOk(cfg)
      modifies this
      ensures sent == ChunksFrom(recs, cfg.sendBatch, 0)
      ensures rows == After(cfg, w, recs, old(rows), UpTo(|recs|))
      ensures failed <==> AnyFails(cfg, w, recs, 0, |recs|)
    {
      hide After;
      hide AnyFails;
      hide OnBoundary;
      failed, sent := false, [];
      ghost var t := rows;
      Beginning(cfg, w, recs, t);
      var start: nat := 0;
      while start < |recs|
        invariant OnBoundary(start, cfg.sendBatch)
        invariant rows == After(cfg, w, recs, t, UpTo(Min(start, |recs|)))
        invariant failed <==> AnyFails(cfg, w, recs, 0, Min(start, |recs|))
        invariant sent + ChunksFrom(recs, cfg.sendBatch, start) == ChunksFrom(recs, cfg.sendBatch, 0)
        decreases |recs| - start
      {
        var chunk := ChunkAt(recs, cfg.sendBatch, start);
        failed := Deliver(recs, start, chunk, w, failed, t);
        AnyFailsSplit(cfg, w, recs, 0, start, start + |chunk|);
        NextBoundary(start, cfg.sendBatch);
        assert sent + ChunksFrom(recs, cfg.sendBatch, start)
            == sent + [chunk] + ChunksFrom(recs, cfg.sendBatch, start + cfg.sendBatch);
        sent := sent + [chunk];
        start := start + cfg.sendBatch;
      }
    }

    /** One run. The claim is made once: if it fails nothing changes and the run fails; otherwise every claimed row gets
        exactly its one outcome, and the run fails exactly when the store refused an update. */
    method RunOnce(claim: Option<seq<Record>>, w: World) returns (failed: bool, ghost sent: seq<seq<Record>>)
      requires ConfigOk(cfg)
      modifies this
      ensures claim.None? ==> failed && sent == [] && rows == old(rows)
      ensures claim.Some? ==>
                && sent == ChunksFrom(claim.value, cfg.sendBatch, 0)
                && rows == After(cfg, w, claim.value, old(rows), UpTo(|claim.value|))
                && (failed <==> AnyFails(cfg, w, claim.value, 0, |claim.value|))
    {
      if claim.None? {
        return true, [];
      }
      failed, sent := DeliverAll(claim.value, w);
    }
  }

  predicate OnBoundary(start: nat, size: nat) {
    size > 0 && start % size == 0
  }

  /** The store refuses the update of some record from `lo` up to `hi`. */
  predicate AnyFails(c: RelayConfig, w: World, recs: seq<Record>, lo: nat, hi: nat)
    requires ConfigOk(c)
    decreases hi
  {
    lo < hi && (AnyFails(c, w, recs, lo, hi - 1) || Fails(c, w, recs, hi - 1))
  }

  lemma {:induction false} AnyFailsSplit(c: RelayConfig, w: World, recs: seq<Record>, lo: nat, mid: nat, hi: nat)
    requires ConfigOk(c) && lo <= mid <= hi
    ensures AnyFails(c, w, recs, lo, hi) <==> AnyFails(c, w, recs, lo, mid) || AnyFails(c, w, recs, mid, hi)
    decreases hi - mid
  {
    hide Fails;
    if mid < hi {
      AnyFailsSplit(c, w, recs, lo, mid, hi - 1);
    }
  }

  lemma Beginning(c: RelayConfig, w: World, recs: seq<Record>, t: Table)
    requires ConfigOk(c)
    ensures After(c, w, recs, t, UpTo(0)) == t && !AnyFails(c, w, recs, 0, 0) && OnBoundary(0, c.sendBatch)
  {
  }

  lemma OneMore(c: RelayConfig, w: World, recs: seq<Record>, t: Table, i: nat)
    requires ConfigOk(c) && i < |recs|
    ensures After(c, w, recs, t, UpTo(i + 1))
            == Update(After(c, w, recs, t, UpTo(i)), recs[i], OutcomeAt(c, w, recs, i), w.refused)
  {
    assert UpTo(i + 1)[..i] == UpTo(i);
  }

  lemma NextBoundary(a: nat, size: nat)
    requires OnBoundary(a, size)
    ensures OnBoundary(a + size, size)
  {
    DivShift(a, size);
  }

  /** The store refuses the update of record `i`. */
  predicate Fails(c: RelayConfig, w: World, recs: seq<Record>, i: nat)
    requires ConfigOk(c)
  {
    i < |recs| && OutcomeAt(c, w, recs, i) != LeftLeased && recs[i].id in w.refused
  }

  lemma ResultOfChunk(c: RelayConfig, w: World, recs: seq<Record>, start: nat, i: nat)
    requires ConfigOk(c) && start < |recs| && start % c.sendBatch == 0 && i < |ChunkAt(recs, c.sendBatch, start)|
    ensures start + i < |recs|
    ensures ResultAt(c, w, recs, start + i) == Results(w.send, ChunkAt(recs, c.sendBatch, start))[i]
  {
    ModShift(start, i, c.sendBatch);
  }

  lemma ModShift(start: nat, i: nat, size: nat)
    requires size > 0 && start % size == 0 && i < size
    ensures (start + i) % size == i
  {
    UnitStep(start, size);
    DivModUnique(start + i, size, start / size, i);
  }

  /** A row is marked sent only when the sink returned nil for it, and one that failed only because the run ended keeps
      its lease and its place. */
  lemma SentOnlyWhenDelivered(c: RelayConfig, w: World, recs: seq<Record>, i: nat)
    requires ConfigOk(c) && i < |recs|
    ensures OutcomeAt(c, w, recs, i) == MarkSent <==> ResultAt(c, w, recs, i).Delivered?
    ensures OutcomeAt(c, w, recs, i) == LeftLeased <==>
              Interrupted(w.ended(recs[i].id), ResultAt(c, w, recs, i))
    ensures OutcomeAt(c, w, recs, i).Retry? ==> recs[i].attempts < c.maxAttempts
  {
  }

  // ---------- across runs ----------

  /** A claim in some relay's hands: the row and the attempt it was claimed for. */
  datatype Claim = Claim(id: int, attempt: int)

  /** `retried[id]` are the attempts after which the row was rescheduled; `delivered[id]` those the sink accepted. */
  datatype State = State(rows: Table, inHand: set<Claim>, retried: map<int, set<int>>, delivered: map<int, set<int>>)

  function Get(m: map<int, set<int>>, id: int): set<int> {
    if id in m then m[id] else {}
  }

  ghost predicate Enqueue(s: State, s': State, id: int) {
    id !in s.rows && s' == s.(rows := s.rows[id := Row(Pending, 0, 0)])
  }

  /** A relay claims a pending row, for the first time, after its wait, or because an earlier lease ran out. */
  ghost predicate TakeRow(s: State, s': State, id: int) {
    && id in s.rows && s.rows[id].status.Pending?
    && var n := s.rows[id].attempts + 1;
    && s' == s.(rows := s.rows[id := s.rows[id].(attempts := n)], inHand := s.inHand + {Claim(id, n)})
  }

  /** A relay finishes with a claim: with its outcome, recorded or refused. */
  ghost predicate Finish(c: RelayConfig, s: State, s': State, k: Claim, ended: bool, r: SendResult, refused: bool) {
    && k in s.inHand && k.id in s.rows
    && var o := OutcomeOf(c, k.attempt, ended, r);
    && s' == State(
         if refused then s.rows else s.rows[k.id := Recorded(s.rows[k.id], o)],
         s.inHand - {k},
         if o.Retry? then s.retried[k.id := Get(s.retried, k.id) + {k.attempt}] else s.retried,
         if r.Delivered? then s.delivered[k.id := Get(s.delivered, k.id) + {k.attempt}] else s.delivered)
  }

  /** A relay dies with a claim in hand. */
  ghost predicate Drop(s: State, s': State, k: Claim) {
    s' == s.(inHand := s.inHand - {k})
  }

  ghost predicate Next(c: RelayConfig, s: State, s': State) {
    || (exists id :: Enqueue(s, s', id))
    || (exists id :: TakeRow(s, s', id))
    || (exists k, ended, r, refused :: Finish(c, s, s', k, ended, r, refused))
    || (exists k :: Drop(s, s', k))
  }

  ghost predicate IsRun(c: RelayConfig, run: seq<State>) {
    && run != [] && run[0] == State(map[], {}, map[], map[])
    && forall i | 0 <= i < |run| - 1 :: Next(c, run[i], run[i + 1])
  }

  ghost predicate Inv(c: RelayConfig, s: State) {
    && (forall k | k in s.inHand :: k.id in s.rows && 1 <= k.attempt <= s.rows[k.id].attempts)
    && (forall id | id in s.retried :: id in s.rows)
    && (forall id, n | id in s.retried && n in s.retried[id] ::
          1 <= n < c.maxAttempts && n <= s.rows[id].attempts && Claim(id, n) !in s.inHand)
    && (forall id | id in s.rows && s.rows[id].status.Sent? :: Get(s.delivered, id) != {})
  }

  lemma NextKeeps(c: RelayConfig, s: State, s': State)
    requires Inv(c, s) && Next(c, s, s')
    ensures Inv(c, s')
  {
    hide Finish;
    hide TakeRow;
    hide Inv;
    if id :| Enqueue(s, s', id) {
      EnqueueKeeps(c, s, s', id);
    } else if id :| TakeRow(s, s', id) {
      TakeRowKeeps(c, s, s', id);
    } else if k, ended, r, refused :| Finish(c, s, s', k, ended, r, refused) {
      FinishKeeps(c, s, s', k, ended, r, refused);
    } else {
      var k :| Drop(s, s', k);
      DropKeeps(c, s, s', k);
    }
  }

  lemma EnqueueKeeps(c: RelayConfig, s: State, s': State, id: int)
    requires Inv(c, s) && Enqueue(s, s', id)
    ensures Inv(c, s')
  {
  }

  lemma TakeRowKeeps(c: RelayConfig, s: State, s': State, id: int)
    requires Inv(c, s) && TakeRow(s, s', id)
    ensures Inv(c, s')
  {
  }

  lemma DropKeeps(c: RelayConfig, s: State, s': State, k: Claim)
    requires Inv(c, s) && Drop(s, s', k)
    ensures Inv(c, s')
  {
  }

  lemma FinishKeeps(c: RelayConfig, s: State, s': State, k: Claim, ended: bool, r: SendResult, refused: bool)
    requires Inv(c, s) && Finish(c, s, s', k, ended, r, refused)
    ensures Inv(c, s')
  {
    hide BackoffOf;
  }

  lemma {:induction false} RunKeeps(c: RelayConfig, run: seq<State>, n: nat)
    requires IsRun(c, run) && n < |run|
    ensures Inv(c, run[n])
  {
    hide Next;
    if n > 0 {
      RunKeeps(c, run, n - 1);
      assert Next(c, run[n - 1], run[n - 1 + 1]);
      NextKeeps(c, run[n - 1], run[n]);
    }
  }

  lemma {:induction false} SmallSet(s: set<int>, n: nat)
    requires forall x | x in s :: 1 <= x <= n
    ensures |s| <= n
    decreases n
  {
    if n == 0 {
      assert forall x :: x !in s;
    } else {
      SmallSet(s - {n}, n - 1);
    }
  }

  /** Across all runs, relays, crashes and expired leases, a row is rescheduled fewer than MaxAttempts times, each time
      after a different attempt, and is marked sent only if some attempt was delivered. */
  lemma RetriesAreBounded(c: RelayConfig, run: seq<State>, n: nat, id: int)
    requires IsRun(c, run) && n < |run| && c.maxAttempts > 0
    ensures |Get(run[n].retried, id)| < c.maxAttempts
    ensures id in run[n].rows && run[n].rows[id].status.Sent? ==> Get(run[n].delivered, id) != {}
  {
    RunKeeps(c, run, n);
    SmallSet(Get(run[n].retried, id), c.maxAttempts - 1);
  }

  /** Sent and parked are final: the row is never pending, and so never claimed, again. */
  lemma FinalStaysFinal(c: RelayConfig, s: State, s': State, id: int)
    requires Next(c, s, s') && id in s.rows && !s.rows[id].status.Pending?
    ensures id in s'.rows && !s'.rows[id].status.Pending? && s'.rows[id].attempts == s.rows[id].attempts
  {
  }
}

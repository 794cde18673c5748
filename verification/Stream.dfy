/** The prefetching row stream as a transition system: bucket readers, one-page channels and one consumer. */
module Stream {
  import opened Wrappers
  import opened Arithmetic
  import Analytics

  // ---------- what is read ----------

  /** One fetched page; an error page ends its bucket. */
  datatype Page = Page(rows: seq<Analytics.ResultRow>, err: Option<string>)

  /** The buckets of a query and the pages their fetches return: page `k` is read from page state `k`, 0 being the empty
      state, and the page state after it is `k + 1`, empty after the last page. */
  datatype World = World(buckets: seq<int>, pages: seq<seq<Page>>, fingerprint: string)

  ghost predicate Valid(w: World) {
    && |w.buckets| == |w.pages|
    && (forall i | 0 <= i < |w.pages| :: |w.pages[i]| > 0)
    && (forall i | 0 <= i < |w.buckets| :: w.buckets[i] % MILLI == 0)
    && (forall i, j | 0 <= i < j < |w.buckets| :: w.buckets[i] < w.buckets[j])
  }

  /** Page `page` of bucket `bucket`. */
  datatype Pos = Pos(bucket: nat, page: nat)

  predicate InRange(w: World, p: Pos) {
    p.bucket < |w.pages| && p.page < |w.pages[p.bucket]|
  }

  predicate Fails(w: World, p: Pos)
    requires InRange(w, p)
  {
    w.pages[p.bucket][p.page].err.Some?
  }

  /** The page state after a page is empty. */
  predicate LastPage(w: World, p: Pos)
    requires InRange(w, p)
  {
    p.page + 1 == |w.pages[p.bucket]|
  }

  /** The reader of a bucket stops after this page. */
  predicate Stops(w: World, p: Pos)
    requires InRange(w, p)
  {
    Fails(w, p) || LastPage(w, p)
  }

  /** The plain read: bucket by bucket, page by page, up to and including the first error. */
  function Sequential(w: World, at: Pos): seq<Pos>
    decreases |w.pages| - at.bucket, if at.bucket < |w.pages| then |w.pages[at.bucket]| - at.page else 0
  {
    if at.bucket >= |w.pages| then []
    else if at.page >= |w.pages[at.bucket]| then Sequential(w, Pos(at.bucket + 1, 0))
    else if Fails(w, at) then [at]
    else [at] + Sequential(w, Pos(at.bucket, at.page + 1))
  }

  // ---------- resume tokens ----------

  /** A decoded position: the bucket's Unix milliseconds (up to a constant), the page state, and the query it is of. */
  datatype Token = Token(millis: int, page: nat, query: string)

  function Millis(t: int): int { t / MILLI }

  /** The token after page `p`. */
  function Position(w: World, p: Pos): Option<Token>
    requires InRange(w, p) && |w.buckets| == |w.pages|
  {
    if !LastPage(w, p) then Some(Token(Millis(w.buckets[p.bucket]), p.page + 1, w.fingerprint))
    else if p.bucket + 1 < |w.buckets| then Some(Token(Millis(w.buckets[p.bucket + 1]), 0, w.fingerprint))
    else None
  }

  datatype TokenBytes = NoToken | Malformed | Encoded(token: Token)

  function DecodeToken(b: TokenBytes, fingerprint: string): Result<Option<Token>, string> {
    match b
    case NoToken => Ok(None)
    case Malformed => Err("malformed resume token")
    case Encoded(t) => if t.query != fingerprint then Err("resume token belongs to a different query") else Ok(Some(t))
  }

  /** Where a stream starts: the first bucket not before the token's, at its page state if it is that bucket. */
  ghost predicate StartsAt(w: World, resume: Option<Token>, at: Pos)
    requires |w.buckets| == |w.pages|
  {
    && at.bucket <= |w.buckets|
    && (resume.None? ==> at == Pos(0, 0))
    && (resume.Some? ==>
          && (forall i | 0 <= i < at.bucket :: Millis(w.buckets[i]) < resume.value.millis)
          && (at.bucket < |w.buckets| ==> Millis(w.buckets[at.bucket]) >= resume.value.millis)
          && at.page == if at.bucket < |w.buckets| && Millis(w.buckets[at.bucket]) == resume.value.millis
                        then resume.value.page else 0)
  }

  method FindStart(w: World, resume: Option<Token>) returns (at: Pos)
    requires |w.buckets| == |w.pages|
    ensures StartsAt(w, resume, at)
  {
    var i := 0;
    while i < |w.buckets|
      invariant 0 <= i <= |w.buckets|
      invariant resume.None? ==> i == 0
      invariant resume.Some? ==> forall j | 0 <= j < i :: Millis(w.buckets[j]) < resume.value.millis
    {
      if resume.Some? && Millis(w.buckets[i]) < resume.value.millis {
        i := i + 1;
        continue;
      }
      if resume.Some? && Millis(w.buckets[i]) == resume.value.millis {
        return Pos(i, resume.value.page);
      }
      return Pos(i, 0);
    }
    at := Pos(i, 0);
  }

  lemma MillisApart(w: World, i: nat, j: nat)
    requires Valid(w) && i < j < |w.buckets|
    ensures Millis(w.buckets[i]) < Millis(w.buckets[j])
  {
    var a, b := w.buckets[i], w.buckets[j];
    assert a == (a / MILLI) * MILLI && b == (b / MILLI) * MILLI;
  }

  lemma StartOfToken(w: World, b: nat, page: nat, at: Pos)
    requires Valid(w) && b < |w.buckets| && StartsAt(w, Some(Token(Millis(w.buckets[b]), page, w.fingerprint)), at)
    ensures at == Pos(b, page)
  {
    if at.bucket < b {
      MillisApart(w, at.bucket, b);
    }
  }

  /** Resuming: what a fresh stream opened with the token after page `p` reads is exactly what follows `p`, wherever
      the cut falls; and there is no token exactly when nothing follows. */
  lemma ResumeContinues(w: World, p: Pos, at: Pos)
    requires Valid(w) && InRange(w, p)
    ensures Position(w, p).None? <==> Sequential(w, Pos(p.bucket, p.page + 1)) == []
    ensures Position(w, p).Some? ==>
              && DecodeToken(Encoded(Position(w, p).value), w.fingerprint) == Ok(Position(w, p))
              && (StartsAt(w, Position(w, p), at) ==> Sequential(w, at) == Sequential(w, Pos(p.bucket, p.page + 1)))
  {
    NothingFollows(w, p);
    if Position(w, p).Some? && StartsAt(w, Position(w, p), at) {
      if LastPage(w, p) {
        StartOfToken(w, p.bucket + 1, 0, at);
      } else {
        StartOfToken(w, p.bucket, p.page + 1, at);
      }
    }
  }

  lemma NothingFollows(w: World, p: Pos)
    requires Valid(w) && InRange(w, p)
    ensures Sequential(w, Pos(p.bucket, p.page + 1)) != [] <==> !LastPage(w, p) || p.bucket + 1 < |w.pages|
  {
    if LastPage(w, p) {
      assert Sequential(w, Pos(p.bucket, p.page + 1)) == Sequential(w, Pos(p.bucket + 1, 0));
    }
  }

  // ---------- the machine ----------

  /** A reader fetches page `k`, holds it until the channel takes it, and is done once it closed the channel. */
  datatype Reader = NotStarted | Fetching(k: nat) | Sending(k: nat) | Done

  /** `chans[i]` is the page waiting in bucket i's channel; `next` the next page to come from bucket `cur`; `delivered`
      the pages Next returned so far. */
  datatype State = State(
    origin: Pos, cur: nat, next: nat, started: nat, readers: seq<Reader>, chans: seq<Option<nat>>,
    delivered: seq<Pos>, token: Option<Token>, err: Option<Pos>)

  function FirstPage(s: State, i: nat): nat { if i == s.origin.bucket then s.origin.page else 0 }

  /** Starts readers until `window` buckets from `cur` on are in flight. */
  function Fill(w: World, s: State, window: nat): State {
    var until := Min(|w.pages|, s.cur + window);
    if until <= s.started then s
    else
      s.(started := until,
         readers := seq(|s.readers|, i requires 0 <= i < |s.readers| =>
           if s.started <= i < until then Fetching(FirstPage(s, i)) else s.readers[i]))
  }

  /** The loop that starts the readers. */
  method FillLoop(w: World, s: State, window: nat) returns (t: State)
    requires |s.readers| == |w.pages| && s.started <= |w.pages|
    ensures t == Fill(w, s, window)
  {
    t := s;
    while t.started < |w.pages| && t.started < s.cur + window
      invariant s.started <= t.started && (t.started > s.started ==> t.started <= Min(|w.pages|, s.cur + window))
      invariant t == s.(started := t.started, readers := t.readers) && |t.readers| == |s.readers|
      invariant forall i | 0 <= i < |s.readers| ::
                  t.readers[i] == if s.started <= i < t.started then Fetching(FirstPage(s, i)) else s.readers[i]
    {
      var i := t.started;
      t := t.(readers := t.readers[i := Fetching(FirstPage(s, i))], started := i + 1);
    }
    if t.started > s.started {
      assert t.readers == Fill(w, s, window).readers;
    } else {
      assert t.readers == s.readers;
    }
  }

  function Open(w: World, at: Pos, window: nat): State {
    var n := |w.pages|;
    Fill(w,
         State(at, at.bucket, at.page, at.bucket, seq(n, i => NotStarted), seq(n, i => None), [], None, None),
         window)
  }

  predicate IsStart(w: World, at: Pos) {
    && at.bucket <= |w.pages| && (at.bucket < |w.pages| ==> at.page < |w.pages[at.bucket]|)
    && (at.bucket == |w.pages| ==> at.page == 0)
  }

  ghost predicate Fetch(w: World, s: State, s': State, i: nat) {
    && i < |s.readers| && s.readers[i].Fetching?
    && s' == s.(readers := s.readers[i := Sending(s.readers[i].k)])
  }

  ghost predicate Send(w: World, s: State, s': State, i: nat) {
    && i < |s.readers| == |s.chans| && s.readers[i].Sending? && s.chans[i].None? && InRange(w, Pos(i, s.readers[i].k))
    && var k := s.readers[i].k;
    && s' == s.(chans := s.chans[i := Some(k)],
                readers := s.readers[i := if Stops(w, Pos(i, k)) then Done else Fetching(k + 1)])
  }

  /** Next takes a page from the current bucket's channel: it is returned, or its error is kept. */
  ghost predicate Receive(w: World, s: State, s': State) {
    && s.err.None? && s.cur < |s.chans| && s.chans[s.cur].Some? && |w.buckets| == |w.pages|
    && var p := Pos(s.cur, s.chans[s.cur].value);
    && InRange(w, p)
    && s' == if Fails(w, p) then s.(chans := s.chans[s.cur := None], err := Some(p))
             else s.(chans := s.chans[s.cur := None], delivered := s.delivered + [p], next := p.page + 1,
                     token := Position(w, p))
  }

  /** Whether Next says more pages follow the page `p` it returns. */
  predicate More(w: World, p: Pos)
    requires InRange(w, p)
  {
    !LastPage(w, p) || p.bucket + 1 < |w.pages|
  }

  /** Next finds the current channel closed and moves on. */
  ghost predicate Advance(w: World, s: State, s': State, window: nat) {
    && s.err.None? && s.cur < |s.chans| == |s.readers| && s.chans[s.cur].None? && s.readers[s.cur].Done?
    && s' == Fill(w, s.(cur := s.cur + 1, next := 0), window)
  }

  ghost predicate Step(w: World, s: State, s': State, window: nat) {
    || (exists i :: Fetch(w, s, s', i))
    || (exists i :: Send(w, s, s', i))
    || Receive(w, s, s')
    || Advance(w, s, s', window)
  }

  ghost predicate IsRun(w: World, at: Pos, window: nat, run: seq<State>) {
    && run != [] && run[0] == Open(w, at, window)
    && forall i | 0 <= i < |run| - 1 :: Step(w, run[i], run[i + 1], window)
  }

  // ---------- the invariant ----------

  /** The next page the consumer has not taken from bucket `i`. */
  function Awaited(s: State, i: nat): nat {
    if i == s.cur then s.next else FirstPage(s, i)
  }

  /** Everything of bucket `i` up to page `k` has been sent, and no more is to come. */
  ghost predicate Exhausted(w: World, i: nat, k: nat)
    requires i < |w.pages|
  {
    0 < k <= |w.pages[i]| && Stops(w, Pos(i, k - 1))
  }

  /** A live bucket: the channel holds the awaited page or nothing, and the reader is right behind it. */
  ghost predicate BucketOk(w: World, s: State, i: nat)
    requires i < |w.pages| == |s.readers| == |s.chans|
  {
    var sent := if s.chans[i].Some? then Awaited(s, i) + 1 else Awaited(s, i);
    && (s.chans[i].Some? ==> s.chans[i].value == Awaited(s, i) && Awaited(s, i) < |w.pages[i]|)
    && match s.readers[i]
       case NotStarted => false
       case Fetching(k) => k == sent && k < |w.pages[i]| && (s.chans[i].Some? ==> !Stops(w, Pos(i, Awaited(s, i))))
       case Sending(k) => k == sent && k < |w.pages[i]| && (s.chans[i].Some? ==> !Stops(w, Pos(i, Awaited(s, i))))
       case Done => (Exhausted(w, i, sent) && sent > FirstPage(s, i)) || (s.err.Some? && i == s.cur)
  }

  ghost predicate Inv(w: World, at: Pos, s: State, window: nat) {
    && s.origin == at && at.bucket <= s.cur <= |w.pages| == |s.readers| == |s.chans|
    && s.started == (if s.cur + window < |w.pages| then s.cur + window else |w.pages|)
    && (forall i | s.started <= i < |w.pages| :: s.readers[i].NotStarted? && s.chans[i].None?)
    && (forall i | 0 <= i < s.cur :: !s.readers[i].Fetching? && !s.readers[i].Sending? && s.chans[i].None?)
    && (forall i | s.cur <= i < s.started :: BucketOk(w, s, i))
    && (s.cur < |w.pages| ==> FirstPage(s, s.cur) <= s.next <= |w.pages[s.cur]|)
    && (s.cur == |w.pages| ==> s.next == 0)
    && (s.cur < |w.pages| && s.next > FirstPage(s, s.cur) ==> !Fails(w, Pos(s.cur, s.next - 1)))
    && (s.err.Some? ==> s.err.value == Pos(s.cur, s.next) && InRange(w, s.err.value) && Fails(w, s.err.value)
                        && s.chans[s.cur].None? && s.readers[s.cur].Done?)
    && Sequential(w, at) == s.delivered + Sequential(w, Pos(s.cur, s.next))
    && (forall i | 0 <= i < |s.delivered| :: InRange(w, s.delivered[i]) && !Fails(w, s.delivered[i]))
    && |w.buckets| == |w.pages|
    && s.token == (if s.delivered == [] then None else Position(w, s.delivered[|s.delivered| - 1]))
  }

  lemma OpenHolds(w: World, at: Pos, window: nat)
    requires Valid(w) && IsStart(w, at) && window > 0
    ensures Inv(w, at, Open(w, at, window), window)
  {
  }

  lemma FetchKeeps(w: World, at: Pos, s: State, s': State, window: nat, i: nat)
    requires Valid(w) && Inv(w, at, s, window) && Fetch(w, s, s', i)
    ensures Inv(w, at, s', window)
  {
    hide Sequential;
    assert s.cur <= i < s.started;
    assert BucketOk(w, s, i);
    forall j | s.cur <= j < s.started ensures BucketOk(w, s', j) {
      assert BucketOk(w, s, j);
    }
  }

  lemma SendKeeps(w: World, at: Pos, s: State, s': State, window: nat, i: nat)
    requires Valid(w) && Inv(w, at, s, window) && Send(w, s, s', i)
    ensures Inv(w, at, s', window)
  {
    hide Sequential;
    assert s.cur <= i < s.started;
    assert BucketOk(w, s, i);
    forall j | s.cur <= j < s.started ensures BucketOk(w, s', j) {
      assert BucketOk(w, s, j);
    }
  }

  lemma ReceiveError(w: World, at: Pos, s: State, s': State, window: nat)
    requires Valid(w) && Inv(w, at, s, window) && Receive(w, s, s') && window > 0
             && Fails(w, Pos(s.cur, s.chans[s.cur].value))
    ensures Inv(w, at, s', window)
  {
    hide Sequential;
    assert BucketOk(w, s, s.cur);
    forall j | s'.cur <= j < s'.started ensures BucketOk(w, s', j) {
      assert BucketOk(w, s, j);
    }
  }

  lemma ReceivePage(w: World, at: Pos, s: State, s': State, window: nat)
    requires Valid(w) && Inv(w, at, s, window) && Receive(w, s, s') && window > 0
    requires !Fails(w, Pos(s.cur, s.chans[s.cur].value))
    ensures Inv(w, at, s', window)
  {
    hide Sequential;
    assert BucketOk(w, s, s.cur);
    TakePage(w, at, s, Pos(s.cur, s.next));
    forall j | s'.cur <= j < s'.started ensures BucketOk(w, s', j) {
      assert BucketOk(w, s, j);
    }
  }

  lemma TakePage(w: World, at: Pos, s: State, p: Pos)
    requires InRange(w, p) && !Fails(w, p) && Sequential(w, at) == s.delivered + Sequential(w, p)
    ensures Sequential(w, at) == s.delivered + [p] + Sequential(w, Pos(p.bucket, p.page + 1))
  {
    assert Sequential(w, p) == [p] + Sequential(w, Pos(p.bucket, p.page + 1));
    assert s.delivered + ([p] + Sequential(w, Pos(p.bucket, p.page + 1)))
        == s.delivered + [p] + Sequential(w, Pos(p.bucket, p.page + 1));
  }

  lemma ReceiveKeeps(w: World, at: Pos, s: State, s': State, window: nat)
    requires Valid(w) && Inv(w, at, s, window) && Receive(w, s, s') && window > 0
    ensures Inv(w, at, s', window)
  {
    hide Inv;
    if Fails(w, Pos(s.cur, s.chans[s.cur].value)) {
      ReceiveError(w, at, s, s', window);
    } else {
      ReceivePage(w, at, s, s', window);
    }
  }

  lemma AdvanceKeeps(w: World, at: Pos, s: State, s': State, window: nat)
    requires Valid(w) && Inv(w, at, s, window) && Advance(w, s, s', window) && window > 0
    ensures Inv(w, at, s', window)
  {
    hide Sequential;
    hide Position;
    BucketIsRead(w, at, s, window);
    forall j | s'.cur <= j < s'.started ensures BucketOk(w, s', j) {
      if j < s.started {
        assert BucketOk(w, s, j);
      }
    }
  }

  /** A bucket whose channel is closed has been read to its end. */
  lemma BucketIsRead(w: World, at: Pos, s: State, window: nat)
    requires Inv(w, at, s, window) && window > 0 && s.err.None? && s.cur < |w.pages|
    requires s.chans[s.cur].None? && s.readers[s.cur].Done?
    ensures s.next == |w.pages[s.cur]| && Sequential(w, Pos(s.cur, s.next)) == Sequential(w, Pos(s.cur + 1, 0))
  {
    assert BucketOk(w, s, s.cur);
    ReadsOn(w, Pos(s.cur, s.next));
  }

  lemma StepKeeps(w: World, at: Pos, s: State, s': State, window: nat)
    requires Valid(w) && Inv(w, at, s, window) && Step(w, s, s', window) && window > 0
    ensures Inv(w, at, s', window)
  {
    hide Inv;
    hide Advance;
    hide Receive;
    if i :| Fetch(w, s, s', i) {
      FetchKeeps(w, at, s, s', window, i);
    } else if i :| Send(w, s, s', i) {
      SendKeeps(w, at, s, s', window, i);
    } else if Receive(w, s, s') {
      ReceiveKeeps(w, at, s, s', window);
    } else {
      AdvanceKeeps(w, at, s, s', window);
    }
  }

  lemma {:induction false} RunKeeps(w: World, at: Pos, window: nat, run: seq<State>, n: nat)
    requires Valid(w) && IsStart(w, at) && window > 0 && IsRun(w, at, window, run) && n < |run|
    ensures Inv(w, at, run[n], window)
  {
    hide Inv;
    hide Step;
    hide Open;
    if n == 0 {
      OpenHolds(w, at, window);
    } else {
      RunKeeps(w, at, window, run, n - 1);
      assert Step(w, run[n - 1], run[n - 1 + 1], window);
      StepKeeps(w, at, run[n - 1], run[n], window);
    }
  }

  // ---------- what every interleaving delivers ----------

  /** The readers at work. */
  function LiveReaders(s: State): set<nat> {
    set i: nat | i < |s.readers| && (s.readers[i].Fetching? || s.readers[i].Sending?)
  }

  /** Whatever the interleaving: the pages delivered are a prefix of the plain read, the rest is still ahead; the first
      error is the one that ends the plain read; the current bucket has a reader; and at most `window` readers live. */
  lemma PrefetchDeliversInOrder(w: World, at: Pos, window: nat, run: seq<State>, n: nat)
    requires Valid(w) && IsStart(w, at) && window > 0 && IsRun(w, at, window, run) && n < |run|
    ensures var s := run[n];
            && s.delivered <= Sequential(w, at)
            && (s.err.Some? ==> Sequential(w, at) == s.delivered + [s.err.value])
            && (s.err.None? && s.cur == |w.pages| ==> Sequential(w, at) == s.delivered)
            && (s.cur < |w.pages| ==> s.cur < |s.readers| && !s.readers[s.cur].NotStarted?)
            && |LiveReaders(s)| <= window
  {
    RunKeeps(w, at, window, run, n);
    var s := run[n];
    if s.err.Some? {
      assert Sequential(w, Pos(s.cur, s.next)) == [s.err.value];
    }
    if s.cur < |w.pages| {
      assert BucketOk(w, s, s.cur);
    }
    IntervalSize(s.cur, window, LiveReaders(s));
  }

  lemma {:induction false} IntervalSize(from: nat, n: nat, s: set<nat>)
    requires forall i | i in s :: from <= i < from + n
    ensures |s| <= n
    decreases n
  {
    if n == 0 {
      assert s == {};
    } else {
      IntervalSize(from, n - 1, s - {from + n - 1});
    }
  }

  /** `more` is exact: it is true of a delivered page exactly when another page, or an error, is still to come. */
  lemma MoreIsExact(w: World, at: Pos, window: nat, run: seq<State>, n: nat)
    requires Valid(w) && IsStart(w, at) && window > 0 && IsRun(w, at, window, run) && n < |run|
    ensures forall i | 0 <= i < |run[n].delivered| ::
              var p := run[n].delivered[i];
              InRange(w, p) && (More(w, p) <==> |Sequential(w, at)| > i + 1)
  {
    RunKeeps(w, at, window, run, n);
    var s := run[n];
    forall i | 0 <= i < |s.delivered|
      ensures var p := s.delivered[i]; InRange(w, p) && (More(w, p) <==> |Sequential(w, at)| > i + 1)
    {
      var p := s.delivered[i];
      assert Sequential(w, at)[i] == p;
      FollowsAt(w, at, i);
      NothingFollows(w, p);
    }
  }

  /** After its `i`-th page the plain read goes on from the page after it. */
  lemma {:induction false} FollowsAt(w: World, at: Pos, i: nat)
    requires i < |Sequential(w, at)|
    ensures var p := Sequential(w, at)[i];
            InRange(w, p) && (!Fails(w, p) ==> Sequential(w, at)[i + 1..] == Sequential(w, Pos(p.bucket, p.page + 1)))
            && (Fails(w, p) ==> i + 1 == |Sequential(w, at)|)
    decreases |w.pages| - at.bucket, if at.bucket < |w.pages| then |w.pages[at.bucket]| - at.page else 0
  {
    ReadsOn(w, at);
    hide Sequential;
    if at.page >= |w.pages[at.bucket]| {
      FollowsAt(w, Pos(at.bucket + 1, 0), i);
    } else if !Fails(w, at) && i > 0 {
      FollowsAt(w, Pos(at.bucket, at.page + 1), i - 1);
      Shifted(at, Sequential(w, Pos(at.bucket, at.page + 1)), i);
    }
  }

  /** One step of the plain read. */
  lemma ReadsOn(w: World, at: Pos)
    ensures Sequential(w, at)
            == if at.bucket >= |w.pages| then []
               else if at.page >= |w.pages[at.bucket]| then Sequential(w, Pos(at.bucket + 1, 0))
               else if Fails(w, at) then [at]
               else [at] + Sequential(w, Pos(at.bucket, at.page + 1))
  {
  }

  lemma Shifted(at: Pos, rest: seq<Pos>, i: nat)
    requires 0 < i <= |rest|
    ensures ([at] + rest)[i] == rest[i - 1] && ([at] + rest)[i + 1..] == rest[i..]
  {
  }

  /** The token of a stream, whatever the interleaving that led there, resumes exactly what it has not delivered. */
  lemma TokenResumesTheRest(w: World, at: Pos, window: nat, run: seq<State>, n: nat, again: Pos)
    requires Valid(w) && IsStart(w, at) && window > 0 && IsRun(w, at, window, run) && n < |run|
    requires run[n].token.Some? && StartsAt(w, run[n].token, again)
    ensures IsStart(w, again) && run[n].delivered + Sequential(w, again) == Sequential(w, at)
  {
    hide IsRun;
    hide Sequential;
    hide Inv;
    RunKeeps(w, at, window, run, n);
    var s := run[n];
    LastDelivered(w, at, s, window);
    var i := |s.delivered| - 1;
    var p := s.delivered[i];
    ResumeContinues(w, p, again);
    FollowsAt(w, at, i);
    if LastPage(w, p) {
      StartOfToken(w, p.bucket + 1, 0, again);
    } else {
      StartOfToken(w, p.bucket, p.page + 1, again);
    }
    assert Sequential(w, at) == Sequential(w, at)[..i + 1] + Sequential(w, at)[i + 1..];
  }

  /** The token is that of the last page delivered, which ends a prefix of the plain read. */
  lemma LastDelivered(w: World, at: Pos, s: State, window: nat)
    requires Inv(w, at, s, window) && s.token.Some?
    ensures var i := |s.delivered| - 1;
            && i >= 0 && i < |Sequential(w, at)| && |w.buckets| == |w.pages|
            && s.delivered == Sequential(w, at)[..i + 1] && s.delivered[i] == Sequential(w, at)[i]
            && InRange(w, s.delivered[i]) && !Fails(w, s.delivered[i]) && s.token == Position(w, s.delivered[i])
  {
    hide Sequential;
  }

  // ---------- progress ----------

  ghost predicate Finished(w: World, s: State) {
    s.err.Some? || s.cur >= |w.pages|
  }

  /** No deadlock: until the consumer has everything or an error, some step is enabled. */
  lemma SomeStepIsEnabled(w: World, at: Pos, s: State, window: nat)
    requires Valid(w) && window > 0 && Inv(w, at, s, window) && !Finished(w, s)
    ensures exists s' :: Step(w, s, s', window)
  {
    var i := s.cur;
    assert BucketOk(w, s, i);
    if s.chans[i].Some? {
      var p := Pos(i, s.chans[i].value);
      var s' := if Fails(w, p) then s.(chans := s.chans[i := None], err := Some(p))
                else s.(chans := s.chans[i := None], delivered := s.delivered + [p], next := p.page + 1,
                        token := Position(w, p));
      assert Receive(w, s, s');
      assert Step(w, s, s', window);
    } else {
      match s.readers[i]
      case Fetching(k) =>
        var s' := s.(readers := s.readers[i := Sending(k)]);
        assert Fetch(w, s, s', i);
        assert Step(w, s, s', window);
      case Sending(k) =>
        var s' := s.(chans := s.chans[i := Some(k)],
                     readers := s.readers[i := if Stops(w, Pos(i, k)) then Done else Fetching(k + 1)]);
        assert Send(w, s, s', i);
        assert Step(w, s, s', window);
      case Done =>
        var s' := Fill(w, s.(cur := s.cur + 1, next := 0), window);
        assert Advance(w, s, s', window);
        assert Step(w, s, s', window);
    }
  }

  /** Work left in one bucket: three moves a page, and the take of a waiting one. */
  function Work(w: World, s: State, i: nat): nat
    requires i < |w.pages| == |s.readers| == |s.chans|
  {
    (match s.readers[i]
     case NotStarted => 3 * |w.pages[i]|
     case Fetching(k) => if k < |w.pages[i]| then 3 * (|w.pages[i]| - k) else 0
     case Sending(k) => if k < |w.pages[i]| then 3 * (|w.pages[i]| - k) - 1 else 0
     case Done => 0)
    + if s.chans[i].Some? then 1 else 0
  }

  function WorkBelow(w: World, s: State, n: nat): nat
    requires n <= |w.pages| == |s.readers| == |s.chans|
  {
    if n == 0 then 0 else WorkBelow(w, s, n - 1) + Work(w, s, n - 1)
  }

  function Measure(w: World, s: State): nat
    requires s.cur <= |w.pages| == |s.readers| == |s.chans|
  {
    WorkBelow(w, s, |w.pages|) + |w.pages| - s.cur
  }

  lemma {:induction false} WorkChangesAt(w: World, s: State, s': State, i: nat, n: nat)
    requires n <= |w.pages| == |s.readers| == |s.chans| == |s'.readers| == |s'.chans| && i < |w.pages|
    requires forall j | 0 <= j < |w.pages| && j != i :: Work(w, s', j) == Work(w, s, j)
    ensures WorkBelow(w, s', n) == WorkBelow(w, s, n) + if i < n then Work(w, s', i) - Work(w, s, i) else 0
    decreases n
  {
    hide Work;
    if n > 0 {
      WorkChangesAt(w, s, s', i, n - 1);
    }
  }

  lemma {:induction false} WorkNoMore(w: World, s: State, s': State, n: nat)
    requires n <= |w.pages| == |s.readers| == |s.chans| == |s'.readers| == |s'.chans|
    requires forall j | 0 <= j < |w.pages| :: Work(w, s', j) <= Work(w, s, j)
    ensures WorkBelow(w, s', n) <= WorkBelow(w, s, n)
    decreases n
  {
    hide Work;
    if n > 0 {
      WorkNoMore(w, s, s', n - 1);
    }
  }

  lemma ReaderWork(w: World, at: Pos, s: State, s': State, window: nat, i: nat)
    requires Valid(w) && Inv(w, at, s, window) && (Fetch(w, s, s', i) || Send(w, s, s', i))
    ensures s'.cur <= |w.pages| == |s'.readers| == |s'.chans| && Measure(w, s') < Measure(w, s)
  {
    hide Sequential;
    assert BucketOk(w, s, i);
    assert Work(w, s', i) < Work(w, s, i);
    WorkChangesAt(w, s, s', i, |w.pages|);
  }

  lemma ReceiveWork(w: World, at: Pos, s: State, s': State, window: nat)
    requires Inv(w, at, s, window) && Receive(w, s, s')
    ensures s'.cur <= |w.pages| == |s'.readers| == |s'.chans| && Measure(w, s') < Measure(w, s)
  {
    hide Sequential;
    WorkChangesAt(w, s, s', s.cur, |w.pages|);
  }

  /** Every step uses up work, so no run goes on for ever: it ends with everything delivered, or the first error. */
  lemma StepUsesWork(w: World, at: Pos, s: State, s': State, window: nat)
    requires Valid(w) && window > 0 && Inv(w, at, s, window) && Step(w, s, s', window)
    ensures Inv(w, at, s', window) && Measure(w, s') < Measure(w, s)
  {
    hide Inv;
    hide Measure;
    hide Receive;
    hide Advance;
    hide Fetch;
    hide Send;
    Sizes(w, at, s, window);
    StepKeeps(w, at, s, s', window);
    Sizes(w, at, s', window);
    if i :| Fetch(w, s, s', i) || Send(w, s, s', i) {
      ReaderWork(w, at, s, s', window, i);
    } else if Receive(w, s, s') {
      ReceiveWork(w, at, s, s', window);
    } else {
      AdvanceWork(w, at, s, s', window);
    }
  }

  lemma AdvanceWork(w: World, at: Pos, s: State, s': State, window: nat)
    requires Valid(w) && window > 0 && Inv(w, at, s, window) && Advance(w, s, s', window)
    requires s'.cur <= |w.pages| == |s'.readers| == |s'.chans|
    ensures Measure(w, s') < Measure(w, s)
  {
    hide Sequential;
    WorkNoMore(w, s, s', |w.pages|);
  }

  /** A run is no longer than the work it starts with. */
  lemma {:induction false} RunsAreFinite(w: World, at: Pos, window: nat, run: seq<State>, n: nat)
    requires Valid(w) && IsStart(w, at) && window > 0 && IsRun(w, at, window, run) && n < |run|
    ensures Inv(w, at, run[0], window) && Inv(w, at, run[n], window)
    ensures Measure(w, run[n]) + n <= Measure(w, run[0])
  {
    hide Inv;
    hide Step;
    hide Open;
    hide Measure;
    OpenHolds(w, at, window);
    RunKeeps(w, at, window, run, n);
    Sizes(w, at, run[0], window);
    Sizes(w, at, run[n], window);
    if n > 0 {
      RunsAreFinite(w, at, window, run, n - 1);
      Sizes(w, at, run[n - 1], window);
      assert Step(w, run[n - 1], run[n - 1 + 1], window);
      StepUsesWork(w, at, run[n - 1], run[n], window);
    }
  }

  lemma Sizes(w: World, at: Pos, s: State, window: nat)
    requires Inv(w, at, s, window)
    ensures s.cur <= |w.pages| == |s.readers| == |s.chans|
  {
  }

  /** The first error sticks: once set, no step delivers a page, changes it, or moves on. */
  lemma ErrorIsSticky(w: World, s: State, s': State, window: nat)
    requires s.err.Some? && Step(w, s, s', window)
    ensures s'.err == s.err && s'.delivered == s.delivered && s'.token == s.token && s'.cur == s.cur
  {
  }
}

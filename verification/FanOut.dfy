/** Bounded fan-out inside a group of jobs, with live delivery to one observer, as a transition system. */
module FanOut {
  import opened Wrappers

  /** A step's result, without its duration. */
  datatype StepResult = StepResult(status: string, detail: string)

  const CANCELLED := StepResult("fail", "context canceled")

  /** One item: waiting, running in a goroutine, its result stored, being told to the observer, told, and its goroutine
      gone. A panic in the work is a stored failing result. */
  datatype Item =
    | NotYet | Running | Stored(r: StepResult) | Telling(r: StepResult) | Told(r: StepResult) | Gone(r: StepResult)
  {
    predicate HasResult() { !NotYet? && !Running? }
    predicate WasTold() { Told? || Gone? }
  }

  /** After its fan-out a job returns `sr`; the steps from `delivered` on are fired under the observer's mutex. */
  datatype Phase =
    | Fanning
    | Collected(sr: seq<StepResult>, delivered: nat)
    | Firing(sr: seq<StepResult>, delivered: nat, at: nat)
    | Done(sr: seq<StepResult>, delivered: nat)

  /** `next` is the spawn loop's index, `spawned` how many goroutines it started, `slots` the items holding a worker
      slot, `count` the emitter's count. */
  datatype Job = Job(
    workers: nat, next: nat, spawned: nat, items: seq<Item>, slots: set<nat>, bailed: bool, count: nat, phase: Phase)

  /** Whom an observer call is for: an item told live, or a returned step fired late. */
  datatype Source = Live(item: nat) | Late(step: nat)
  datatype Event = Event(job: nat, source: Source, result: StepResult)

  /** Who holds the observer's mutex. */
  datatype Holder = ItemOf(job: nat, item: nat) | Flush(job: nat)

  datatype State = State(jobs: seq<Job>, mutex: Option<Holder>, log: seq<Event>, cancelled: bool)

  function NewJob(items: nat, workers: nat): Job {
    Job(workers, 0, 0, seq(items, i => NotYet), {}, false, 0, Fanning)
  }

  ghost predicate Init(s: State) {
    && s.mutex == None && s.log == []
    && forall j | 0 <= j < |s.jobs| ::
         s.jobs[j] == NewJob(|s.jobs[j].items|, s.jobs[j].workers) && s.jobs[j].workers > 0
  }

  function With(s: State, j: nat, job: Job): State
    requires j < |s.jobs|
  {
    s.(jobs := s.jobs[j := job])
  }

  // ---------- the steps of a fan-out ----------

  /** The context ends, at any time. */
  ghost predicate Cancel(s: State, s': State) {
    !s.cancelled && s' == s.(cancelled := true)
  }

  /** A slot is taken before the goroutine is spawned. */
  ghost predicate Spawn(s: State, s': State, j: nat) {
    && j < |s.jobs|
    && var b := s.jobs[j];
    && b.phase.Fanning? && !b.bailed && b.next < |b.items| && |b.slots| < b.workers
    && s' == With(s, j, b.(items := b.items[b.next := Running], slots := b.slots + {b.next},
                           next := b.next + 1, spawned := b.spawned + 1))
  }

  /** The spawn loop sees the cancellation. */
  ghost predicate Bail(s: State, s': State, j: nat) {
    && j < |s.jobs| && s.cancelled && s.jobs[j].phase.Fanning? && !s.jobs[j].bailed
    && s' == With(s, j, s.jobs[j].(bailed := true))
  }

  /** An item that was never spawned gets a cancel result. */
  ghost predicate Tail(s: State, s': State, j: nat) {
    && j < |s.jobs|
    && var b := s.jobs[j];
    && b.phase.Fanning? && b.bailed && b.next < |b.items|
    && s' == With(s, j, b.(items := b.items[b.next := Stored(CANCELLED)], next := b.next + 1))
  }

  /** The work of an item returns, or panics and is recovered; either way its result is stored at its index. */
  ghost predicate Finish(s: State, s': State, j: nat, i: nat, r: StepResult) {
    && j < |s.jobs| && i < |s.jobs[j].items| && s.jobs[j].items[i].Running?
    && s' == With(s, j, s.jobs[j].(items := s.jobs[j].items[i := Stored(r)]))
  }

  ghost predicate BeginTell(s: State, s': State, j: nat, i: nat) {
    && j < |s.jobs| && i < |s.jobs[j].items| && s.jobs[j].items[i].Stored? && s.mutex.None?
    && s' == With(s, j, s.jobs[j].(items := s.jobs[j].items[i := Telling(s.jobs[j].items[i].r)]))
             .(mutex := Some(ItemOf(j, i)))
  }

  ghost predicate EndTell(s: State, s': State, j: nat, i: nat) {
    && j < |s.jobs| && i < |s.jobs[j].items| && s.jobs[j].items[i].Telling?
    && var r := s.jobs[j].items[i].r;
    && s' == With(s, j, s.jobs[j].(items := s.jobs[j].items[i := Told(r)], count := s.jobs[j].count + 1))
             .(mutex := None, log := s.log + [Event(j, Live(i), r)])
  }

  /** The goroutine ends and gives its slot back. */
  ghost predicate Exit(s: State, s': State, j: nat, i: nat) {
    && j < |s.jobs| && i < |s.jobs[j].items| && s.jobs[j].items[i].Told?
    && s' == With(s, j, s.jobs[j].(items := s.jobs[j].items[i := Gone(s.jobs[j].items[i].r)],
                                   slots := s.jobs[j].slots - {i}))
  }

  // ---------- the steps of a job ----------

  /** All goroutines are gone: the fan-out returns, the job returns `sr`, and the emitter's count is read. */
  ghost predicate Return(s: State, s': State, j: nat, sr: seq<StepResult>) {
    && j < |s.jobs|
    && var b := s.jobs[j];
    && b.phase.Fanning? && b.next == |b.items| && (forall i | 0 <= i < |b.items| :: b.items[i].Gone?)
    && s' == With(s, j, b.(phase := Collected(sr, b.count)))
  }

  ghost predicate BeginFire(s: State, s': State, j: nat) {
    && j < |s.jobs| && s.jobs[j].phase.Collected? && s.mutex.None?
    && var p := s.jobs[j].phase;
    && p.delivered < |p.sr|
    && s' == With(s, j, s.jobs[j].(phase := Firing(p.sr, p.delivered, p.delivered))).(mutex := Some(Flush(j)))
  }

  ghost predicate Fire(s: State, s': State, j: nat) {
    && j < |s.jobs| && s.jobs[j].phase.Firing?
    && var p := s.jobs[j].phase;
    && p.at < |p.sr|
    && s' == With(s, j, s.jobs[j].(phase := p.(at := p.at + 1))).(log := s.log + [Event(j, Late(p.at), p.sr[p.at])])
  }

  ghost predicate EndFire(s: State, s': State, j: nat) {
    && j < |s.jobs| && s.jobs[j].phase.Firing?
    && var p := s.jobs[j].phase;
    && p.at >= |p.sr|
    && s' == With(s, j, s.jobs[j].(phase := Done(p.sr, p.delivered))).(mutex := None)
  }

  /** Nothing is left to fire. */
  ghost predicate Settle(s: State, s': State, j: nat) {
    && j < |s.jobs| && s.jobs[j].phase.Collected?
    && var p := s.jobs[j].phase;
    && p.delivered >= |p.sr|
    && s' == With(s, j, s.jobs[j].(phase := Done(p.sr, p.delivered)))
  }

  ghost predicate Next(s: State, s': State) {
    || Cancel(s, s')
    || (exists j :: Spawn(s, s', j) || Bail(s, s', j) || Tail(s, s', j))
    || (exists j, i, r :: Finish(s, s', j, i, r))
    || (exists j, i :: BeginTell(s, s', j, i) || EndTell(s, s', j, i) || Exit(s, s', j, i))
    || (exists j, sr :: Return(s, s', j, sr))
    || (exists j :: BeginFire(s, s', j) || Fire(s, s', j) || EndFire(s, s', j) || Settle(s, s', j))
  }

  ghost predicate IsRun(run: seq<State>) {
    && run != [] && Init(run[0])
    && forall n | 0 <= n < |run| - 1 :: Next(run[n], run[n + 1])
  }

  // ---------- the invariant ----------

  /** How often the observer was called for a source. */
  function Calls(log: seq<Event>, j: nat, src: Source): nat {
    if log == [] then 0
    else
      var e := log[|log| - 1];
      Calls(log[..|log| - 1], j, src) + if e.job == j && e.source == src then 1 else 0
  }

  function ToldCount(items: seq<Item>): nat {
    if items == [] then 0 else ToldCount(items[..|items| - 1]) + if items[|items| - 1].WasTold() then 1 else 0
  }

  /** The slots and the spawn index. */
  ghost predicate Shaped(b: Job) {
    && b.next <= |b.items| && |b.slots| <= b.workers && b.workers > 0
    && (forall i | b.next <= i < |b.items| :: b.items[i].NotYet?)
    && (forall i | 0 <= i < b.next :: !b.items[i].NotYet?)
    && b.spawned <= b.next && (!b.bailed ==> b.spawned == b.next)
    && (forall i | i in b.slots :: i < b.spawned && !b.items[i].Gone?)
    && (forall i | 0 <= i < b.spawned && !b.items[i].Gone? :: i in b.slots)
    && (forall i | b.spawned <= i < |b.items| :: !b.items[i].Running?)
    && (!b.phase.Fanning? ==> forall i | 0 <= i < |b.items| :: b.items[i].Gone?)
    && b.count == ToldCount(b.items)
    && (!b.phase.Fanning? ==> b.phase.delivered == b.count)
    && (b.phase.Firing? ==> b.phase.delivered <= b.phase.at <= |b.phase.sr| && b.phase.delivered < |b.phase.sr|)
  }

  /** Returned steps fired so far: from `delivered` up to here. */
  function FiredTo(p: Phase): nat {
    match p
    case Fanning => 0
    case Collected(_, d) => d
    case Firing(_, _, at) => at
    case Done(sr, d) => if d < |sr| then |sr| else d
  }

  predicate WasFired(p: Phase, k: nat) {
    !p.Fanning? && p.delivered <= k < FiredTo(p)
  }

  /** The log of a job is exactly what its state says was told and fired, each once. */
  ghost predicate Logged(log: seq<Event>, j: nat, b: Job) {
    && (forall i: nat :: Calls(log, j, Live(i)) == if i < |b.items| && b.items[i].WasTold() then 1 else 0)
    && (forall k: nat :: Calls(log, j, Late(k)) == if WasFired(b.phase, k) then 1 else 0)
  }

  /** Every event of a job carries the result of its source. */
  ghost predicate EventOk(b: Job, e: Event) {
    match e.source
    case Live(i) => i < |b.items| && b.items[i].WasTold() && b.items[i].r == e.result
    case Late(k) => !b.phase.Fanning? && k < |b.phase.sr| && b.phase.sr[k] == e.result
  }

  ghost predicate Present(s: State, h: Holder) {
    h.job < |s.jobs| && (h.ItemOf? ==> h.item < |s.jobs[h.job].items|)
  }

  /** The mutex is held by whoever is calling the observer, and nobody else is. */
  ghost predicate Exclusive(s: State) {
    && (forall j, i | 0 <= j < |s.jobs| && 0 <= i < |s.jobs[j].items| ::
          s.jobs[j].items[i].Telling? <==> s.mutex == Some(ItemOf(j, i)))
    && (forall j | 0 <= j < |s.jobs| :: s.jobs[j].phase.Firing? <==> s.mutex == Some(Flush(j)))
    && (s.mutex.Some? ==> Present(s, s.mutex.value))
  }

  ghost predicate Inv(s: State) {
    && (forall j | 0 <= j < |s.jobs| :: Shaped(s.jobs[j]) && Logged(s.log, j, s.jobs[j]))
    && (forall n | 0 <= n < |s.log| :: s.log[n].job < |s.jobs| && EventOk(s.jobs[s.log[n].job], s.log[n]))
    && Exclusive(s)
  }

  // ---------- each step keeps it ----------

  lemma {:induction false} ToldCountUpdate(items: seq<Item>, i: nat, x: Item)
    requires i < |items|
    ensures ToldCount(items[i := x]) == ToldCount(items)
              + (if x.WasTold() then 1 else 0) - (if items[i].WasTold() then 1 else 0)
  {
    var n := |items| - 1;
    if i < n {
      assert items[i := x][..n] == items[..n][i := x];
      ToldCountUpdate(items[..n], i, x);
    } else {
      assert items[i := x][..n] == items[..n];
    }
  }

  lemma {:induction false} NoneTold(items: seq<Item>)
    requires forall i | 0 <= i < |items| :: !items[i].WasTold()
    ensures ToldCount(items) == 0
  {
    if items != [] {
      NoneTold(items[..|items| - 1]);
    }
  }

  lemma {:induction false} AllTold(items: seq<Item>)
    requires forall i | 0 <= i < |items| :: items[i].WasTold()
    ensures ToldCount(items) == |items|
  {
    if items != [] {
      AllTold(items[..|items| - 1]);
    }
  }

  /** A step of one job that changes one item, or none, and logs nothing. */
  lemma QuietKeeps(s: State, s': State, j: nat, b: Job)
    requires Inv(s) && j < |s.jobs| && s'.jobs == s.jobs[j := b] && s'.log == s.log
    requires Shaped(b) && Exclusive(s') && |b.items| == |s.jobs[j].items|
    requires forall i | 0 <= i < |b.items| :: b.items[i].WasTold() == s.jobs[j].items[i].WasTold()
    requires forall i | 0 <= i < |b.items| && b.items[i].WasTold() :: b.items[i].r == s.jobs[j].items[i].r
    requires forall k: nat :: WasFired(b.phase, k) == WasFired(s.jobs[j].phase, k)
    requires !s.jobs[j].phase.Fanning? ==> !b.phase.Fanning? && b.phase.sr == s.jobs[j].phase.sr
    ensures Inv(s')
  {
    hide Shaped;
    hide Exclusive;
    hide WasFired;
    forall l | 0 <= l < |s'.jobs| ensures Shaped(s'.jobs[l]) && Logged(s'.log, l, s'.jobs[l]) {
      assert Shaped(s.jobs[l]) && Logged(s.log, l, s.jobs[l]);
    }
  }

  /** A step that leaves the mutex alone and nobody in or out of an observer call. */
  lemma ExclusiveKept(s: State, s': State, j: nat)
    requires Exclusive(s) && j < |s.jobs| == |s'.jobs| && s'.mutex == s.mutex
    requires forall l | 0 <= l < |s.jobs| && l != j :: s'.jobs[l] == s.jobs[l]
    requires |s'.jobs[j].items| == |s.jobs[j].items| && s'.jobs[j].phase.Firing? == s.jobs[j].phase.Firing?
    requires forall i | 0 <= i < |s.jobs[j].items| :: s'.jobs[j].items[i].Telling? == s.jobs[j].items[i].Telling?
    ensures Exclusive(s')
  {
  }

  lemma SpawnKeeps(s: State, s': State, j: nat)
    requires Inv(s) && Spawn(s, s', j)
    ensures Inv(s')
  {
    hide Logged;
    hide EventOk;
    hide Exclusive;
    ExclusiveKept(s, s', j);
    var b := s.jobs[j];
    assert Shaped(b);
    ToldCountUpdate(b.items, b.next, Running);
    QuietKeeps(s, s', j, s'.jobs[j]);
  }

  lemma BailKeeps(s: State, s': State, j: nat)
    requires Inv(s) && Bail(s, s', j)
    ensures Inv(s')
  {
    hide Logged;
    hide EventOk;
    hide Exclusive;
    ExclusiveKept(s, s', j);
    assert Shaped(s.jobs[j]);
    QuietKeeps(s, s', j, s'.jobs[j]);
  }

  lemma TailKeeps(s: State, s': State, j: nat)
    requires Inv(s) && Tail(s, s', j)
    ensures Inv(s')
  {
    hide Logged;
    hide EventOk;
    hide Exclusive;
    ExclusiveKept(s, s', j);
    var b := s.jobs[j];
    assert Shaped(b);
    ToldCountUpdate(b.items, b.next, Stored(CANCELLED));
    QuietKeeps(s, s', j, s'.jobs[j]);
  }

  lemma FinishKeeps(s: State, s': State, j: nat, i: nat, r: StepResult)
    requires Inv(s) && Finish(s, s', j, i, r)
    ensures Inv(s')
  {
    hide Logged;
    hide EventOk;
    hide Exclusive;
    ExclusiveKept(s, s', j);
    assert Shaped(s.jobs[j]);
    ToldCountUpdate(s.jobs[j].items, i, Stored(r));
    QuietKeeps(s, s', j, s'.jobs[j]);
  }

  lemma BeginTellKeeps(s: State, s': State, j: nat, i: nat)
    requires Inv(s) && BeginTell(s, s', j, i)
    ensures Inv(s')
  {
    hide Logged;
    assert Shaped(s.jobs[j]);
    ToldCountUpdate(s.jobs[j].items, i, Telling(s.jobs[j].items[i].r));
    QuietKeeps(s, s', j, s'.jobs[j]);
  }

  lemma ExitKeeps(s: State, s': State, j: nat, i: nat)
    requires Inv(s) && Exit(s, s', j, i)
    ensures Inv(s')
  {
    hide Logged;
    hide EventOk;
    hide Exclusive;
    ExclusiveKept(s, s', j);
    assert Shaped(s.jobs[j]);
    ToldCountUpdate(s.jobs[j].items, i, Gone(s.jobs[j].items[i].r));
    QuietKeeps(s, s', j, s'.jobs[j]);
  }

  lemma ReturnKeeps(s: State, s': State, j: nat, sr: seq<StepResult>)
    requires Inv(s) && Return(s, s', j, sr)
    ensures Inv(s')
  {
    hide Logged;
    hide EventOk;
    hide Exclusive;
    ExclusiveKept(s, s', j);
    assert Shaped(s.jobs[j]);
    QuietKeeps(s, s', j, s'.jobs[j]);
  }

  lemma SettleKeeps(s: State, s': State, j: nat)
    requires Inv(s) && Settle(s, s', j)
    ensures Inv(s')
  {
    hide Logged;
    hide EventOk;
    hide Exclusive;
    ExclusiveKept(s, s', j);
    assert Shaped(s.jobs[j]);
    QuietKeeps(s, s', j, s'.jobs[j]);
  }

  lemma BeginFireKeeps(s: State, s': State, j: nat)
    requires Inv(s) && BeginFire(s, s', j)
    ensures Inv(s')
  {
    hide Logged;
    hide EventOk;
    assert Shaped(s.jobs[j]);
    QuietKeeps(s, s', j, s'.jobs[j]);
  }

  lemma EndFireKeeps(s: State, s': State, j: nat)
    requires Inv(s) && EndFire(s, s', j)
    ensures Inv(s')
  {
    hide Logged;
    hide EventOk;
    assert Shaped(s.jobs[j]);
    QuietKeeps(s, s', j, s'.jobs[j]);
  }

  lemma CallsAppend(log: seq<Event>, e: Event, j: nat, src: Source)
    ensures Calls(log + [e], j, src) == Calls(log, j, src) + if e.job == j && e.source == src then 1 else 0
  {
    assert (log + [e])[..|log|] == log;
  }

  /** A step that makes one observer call. */
  lemma LoudKeeps(s: State, s': State, j: nat, b: Job, e: Event)
    requires Inv(s) && j < |s.jobs| && s'.jobs == s.jobs[j := b] && s'.log == s.log + [e] && e.job == j
    requires Shaped(b) && Exclusive(s') && |b.items| == |s.jobs[j].items| && EventOk(b, e)
    requires forall i | 0 <= i < |b.items| ::
               b.items[i].WasTold() == (s.jobs[j].items[i].WasTold() || e.source == Live(i))
    requires forall i | 0 <= i < |b.items| && s.jobs[j].items[i].WasTold() ::
               b.items[i] == s.jobs[j].items[i] && e.source != Live(i)
    requires forall k: nat :: WasFired(b.phase, k) == (WasFired(s.jobs[j].phase, k) || e.source == Late(k))
    requires forall k: nat | e.source == Late(k) :: !WasFired(s.jobs[j].phase, k)
    requires !s.jobs[j].phase.Fanning? ==> !b.phase.Fanning? && b.phase.sr == s.jobs[j].phase.sr
    ensures Inv(s')
  {
    hide Shaped;
    hide Exclusive;
    hide WasFired;
    forall l | 0 <= l < |s'.jobs| ensures Shaped(s'.jobs[l]) && Logged(s'.log, l, s'.jobs[l]) {
      assert Shaped(s.jobs[l]) && Logged(s.log, l, s.jobs[l]);
      forall i: nat
        ensures Calls(s'.log, l, Live(i)) == if i < |s'.jobs[l].items| && s'.jobs[l].items[i].WasTold() then 1 else 0
      {
        CallsAppend(s.log, e, l, Live(i));
      }
      forall k: nat ensures Calls(s'.log, l, Late(k)) == if WasFired(s'.jobs[l].phase, k) then 1 else 0 {
        CallsAppend(s.log, e, l, Late(k));
      }
    }
    forall n | 0 <= n < |s'.log| ensures s'.log[n].job < |s'.jobs| && EventOk(s'.jobs[s'.log[n].job], s'.log[n]) {
      if n < |s.log| {
        assert EventOk(s.jobs[s.log[n].job], s.log[n]);
      }
    }
  }

  lemma EndTellKeeps(s: State, s': State, j: nat, i: nat)
    requires Inv(s) && EndTell(s, s', j, i)
    ensures Inv(s')
  {
    hide Logged;
    var b, b', r := s.jobs[j], s'.jobs[j], s.jobs[j].items[i].r;
    assert Shaped(b);
    ToldCountUpdate(b.items, i, Told(r));
    LoudKeeps(s, s', j, b', Event(j, Live(i), r));
  }

  lemma FireKeeps(s: State, s': State, j: nat)
    requires Inv(s) && Fire(s, s', j)
    ensures Inv(s')
  {
    hide Logged;
    var b, p := s.jobs[j], s.jobs[j].phase;
    assert Shaped(b);
    LoudKeeps(s, s', j, s'.jobs[j], Event(j, Late(p.at), p.sr[p.at]));
  }

  lemma CancelKeeps(s: State, s': State)
    requires Inv(s) && Cancel(s, s')
    ensures Inv(s')
  {
  }

  lemma NextKeeps(s: State, s': State)
    requires Inv(s) && Next(s, s')
    ensures Inv(s')
  {
    hide Inv;
    hide Spawn;
    hide Tail;
    hide Bail;
    hide Finish;
    hide BeginTell;
    hide EndTell;
    hide Exit;
    hide Return;
    hide BeginFire;
    hide Fire;
    hide EndFire;
    hide Settle;
    if Cancel(s, s') {
      CancelKeeps(s, s');
    } else if j :| Spawn(s, s', j) {
      SpawnKeeps(s, s', j);
    } else if j :| Bail(s, s', j) {
      BailKeeps(s, s', j);
    } else if j :| Tail(s, s', j) {
      TailKeeps(s, s', j);
    } else if j, i, r :| Finish(s, s', j, i, r) {
      FinishKeeps(s, s', j, i, r);
    } else if j, i :| BeginTell(s, s', j, i) {
      BeginTellKeeps(s, s', j, i);
    } else if j, i :| EndTell(s, s', j, i) {
      EndTellKeeps(s, s', j, i);
    } else if j, i :| Exit(s, s', j, i) {
      ExitKeeps(s, s', j, i);
    } else if j :| Fire(s, s', j) {
      FireKeeps(s, s', j);
    } else if j, sr :| Return(s, s', j, sr) {
      ReturnKeeps(s, s', j, sr);
    } else if j :| BeginFire(s, s', j) {
      BeginFireKeeps(s, s', j);
    } else if j :| EndFire(s, s', j) {
      EndFireKeeps(s, s', j);
    } else {
      var j :| Settle(s, s', j);
      SettleKeeps(s, s', j);
    }
  }

  lemma InitHolds(s: State)
    requires Init(s)
    ensures Inv(s)
  {
    forall j | 0 <= j < |s.jobs| ensures Shaped(s.jobs[j]) && Logged(s.log, j, s.jobs[j]) {
      NoneTold(s.jobs[j].items);
    }
  }

  lemma {:induction false} RunKeeps(run: seq<State>, n: nat)
    requires IsRun(run) && n < |run|
    ensures Inv(run[n])
  {
    hide Inv;
    hide Next;
    if n == 0 {
      InitHolds(run[0]);
    } else {
      RunKeeps(run, n - 1);
      assert Next(run[n - 1], run[n - 1 + 1]);
      NextKeeps(run[n - 1], run[n]);
    }
  }

  // ---------- what every interleaving does ----------

  /** The items whose goroutine is alive: at work, or with a result stored, being told or told. */
  function Alive(b: Job): set<nat> {
    set x: nat | x < b.spawned && x < |b.items| && !b.items[x].Gone?
  }

  /** At any moment of any run: a job has at most `workers` goroutines alive, only those are at work, and at most one
      observer call is going on in the whole group. */
  lemma BoundedAndSerial(run: seq<State>, n: nat, j: nat, j': nat, i: nat, i': nat)
    requires IsRun(run) && n < |run| && j < |run[n].jobs| && j' < |run[n].jobs|
    requires i < |run[n].jobs[j].items| && i' < |run[n].jobs[j'].items|
    ensures |Alive(run[n].jobs[j])| <= run[n].jobs[j].workers
    ensures run[n].jobs[j].items[i].Running? ==> i in Alive(run[n].jobs[j])
    ensures run[n].jobs[j].items[i].Telling? && run[n].jobs[j'].items[i'].Telling? ==> (j, i) == (j', i')
    ensures !(run[n].jobs[j].phase.Firing? && run[n].jobs[j'].items[i'].Telling?)
    ensures run[n].jobs[j].phase.Firing? && run[n].jobs[j'].phase.Firing? ==> j == j'
  {
    RunKeeps(run, n);
    var b := run[n].jobs[j];
    assert Shaped(b);
    assert Alive(b) <= b.slots;
    SubsetSize(Alive(b), b.slots);
    assert Exclusive(run[n]);
  }

  lemma {:induction false} SubsetSize<T>(a: set<T>, b: set<T>)
    requires a <= b
    ensures |a| <= |b|
    decreases |a|
  {
    if x :| x in a {
      SubsetSize(a - {x}, b - {x});
    }
  }

  /** What the fan-out of a job returns: one result per item, at the item's index. */
  function FanResults(items: seq<Item>): (rs: seq<StepResult>)
    requires forall i | 0 <= i < |items| :: items[i].Gone?
    ensures |rs| == |items| && forall i | 0 <= i < |items| :: rs[i] == items[i].r
  {
    seq(|items|, i requires 0 <= i < |items| => items[i].r)
  }

  /** What a step may do to the items: give a fresh one or a running one a state, or move one on with its result. */
  ghost predicate Moves(s: State, s': State) {
    && |s'.jobs| == |s.jobs|
    && forall j | 0 <= j < |s.jobs| ::
         && |s'.jobs[j].items| == |s.jobs[j].items|
         && forall i | 0 <= i < |s.jobs[j].items| && s.jobs[j].items[i].HasResult() ::
              s'.jobs[j].items[i].HasResult() && s'.jobs[j].items[i].r == s.jobs[j].items[i].r
  }

  lemma FanMoves(s: State, s': State, j: nat)
    requires Inv(s) && (Spawn(s, s', j) || Bail(s, s', j) || Tail(s, s', j))
    ensures Moves(s, s')
  {
    hide Logged;
    hide EventOk;
    hide Exclusive;
    assert Shaped(s.jobs[j]);
  }

  lemma TellMoves(s: State, s': State, j: nat, i: nat)
    requires BeginTell(s, s', j, i) || EndTell(s, s', j, i) || Exit(s, s', j, i)
    ensures Moves(s, s')
  {
  }

  lemma PhaseMoves(s: State, s': State, j: nat)
    requires || (exists sr :: Return(s, s', j, sr)) || BeginFire(s, s', j) || Fire(s, s', j) || EndFire(s, s', j)
             || Settle(s, s', j)
    ensures Moves(s, s')
  {
  }

  /** One step never touches a stored result: an item keeps it until its goroutine is gone, and after. */
  lemma StepKeepsResult(s: State, s': State)
    requires Inv(s) && Next(s, s')
    ensures Moves(s, s')
  {
    hide Inv;
    hide Moves;
    hide Spawn;
    hide Tail;
    hide Bail;
    hide Finish;
    hide BeginTell;
    hide EndTell;
    hide Exit;
    hide Return;
    hide BeginFire;
    hide Fire;
    hide EndFire;
    hide Settle;
    if Cancel(s, s') {
      CancelMoves(s, s');
    } else if j :| Spawn(s, s', j) || Bail(s, s', j) || Tail(s, s', j) {
      FanMoves(s, s', j);
    } else if j, i, r :| Finish(s, s', j, i, r) {
      FinishMoves(s, s', j, i, r);
    } else if j, i :| BeginTell(s, s', j, i) || EndTell(s, s', j, i) || Exit(s, s', j, i) {
      TellMoves(s, s', j, i);
    } else if j, sr :| Return(s, s', j, sr) {
      PhaseMoves(s, s', j);
    } else {
      var j :| BeginFire(s, s', j) || Fire(s, s', j) || EndFire(s, s', j) || Settle(s, s', j);
      PhaseMoves(s, s', j);
    }
  }

  lemma CancelMoves(s: State, s': State)
    requires Cancel(s, s')
    ensures Moves(s, s')
  {
  }

  lemma FinishMoves(s: State, s': State, j: nat, i: nat, r: StepResult)
    requires Finish(s, s', j, i, r)
    ensures Moves(s, s')
  {
  }

  lemma {:induction false} RunKeepsResult(run: seq<State>, m: nat, n: nat, j: nat, i: nat)
    requires IsRun(run) && m <= n < |run| && j < |run[m].jobs| && i < |run[m].jobs[j].items|
    requires run[m].jobs[j].items[i].HasResult()
    ensures j < |run[n].jobs| && i < |run[n].jobs[j].items| && run[n].jobs[j].items[i].HasResult()
    ensures run[n].jobs[j].items[i].r == run[m].jobs[j].items[i].r
  {
    hide Inv;
    hide Next;
    if m < n {
      RunKeepsResult(run, m, n - 1, j, i);
      RunKeeps(run, n - 1);
      assert Next(run[n - 1], run[n - 1 + 1]);
      StepKeepsResult(run[n - 1], run[n]);
    }
  }

  /** What the work of item `i` produced, normally or by a panic, is what the fan-out returns at index `i`. */
  lemma ResultAtItsIndex(run: seq<State>, m: nat, n: nat, j: nat, i: nat, r: StepResult)
    requires IsRun(run) && m < n < |run| && Finish(run[m], run[m + 1], j, i, r)
    requires j < |run[n].jobs| && !run[n].jobs[j].phase.Fanning?
    ensures forall k | 0 <= k < |run[n].jobs[j].items| :: run[n].jobs[j].items[k].Gone?
    ensures i < |FanResults(run[n].jobs[j].items)| && FanResults(run[n].jobs[j].items)[i] == r
  {
    hide Inv;
    hide Next;
    RunKeepsResult(run, m + 1, n, j, i);
    RunKeeps(run, n);
    AllGone(run[n], j);
  }

  lemma AllGone(s: State, j: nat)
    requires Inv(s) && j < |s.jobs| && !s.jobs[j].phase.Fanning?
    ensures forall k | 0 <= k < |s.jobs[j].items| :: s.jobs[j].items[k].Gone?
  {
    assert Shaped(s.jobs[j]);
  }

  /** A finished job that returned its fan-out results followed by extras: each returned step reached the observer
      exactly once, live or late, with its own result, and nothing else did. Panics and cancellation included. */
  lemma EachStepOnce(run: seq<State>, n: nat, j: nat, extras: seq<StepResult>)
    requires IsRun(run) && n < |run| && j < |run[n].jobs| && run[n].jobs[j].phase.Done?
    ensures forall i | 0 <= i < |run[n].jobs[j].items| :: run[n].jobs[j].items[i].Gone?
    ensures var b, log := run[n].jobs[j], run[n].log;
            b.phase.sr == FanResults(b.items) + extras ==>
              && (forall k: nat :: Calls(log, j, Live(k)) == if k < |b.items| then 1 else 0)
              && (forall k: nat :: Calls(log, j, Late(k)) == if |b.items| <= k < |b.phase.sr| then 1 else 0)
              && (forall m | 0 <= m < |log| && log[m].job == j ::
                    var k := if log[m].source.Live? then log[m].source.item else log[m].source.step;
                    k < |b.phase.sr| && log[m].result == b.phase.sr[k])
  {
    RunKeeps(run, n);
    var s := run[n];
    var b := s.jobs[j];
    assert Shaped(b) && Logged(s.log, j, b);
    AllTold(b.items);
    if b.phase.sr == FanResults(b.items) + extras {
      forall m | 0 <= m < |s.log| && s.log[m].job == j
        ensures var k := if s.log[m].source.Live? then s.log[m].source.item else s.log[m].source.step;
                k < |b.phase.sr| && s.log[m].result == b.phase.sr[k]
      {
        assert EventOk(b, s.log[m]);
      }
    }
  }

  /** A job that returns fewer steps than were told live has none fired again. */
  lemma AggregatesAreNotRefired(run: seq<State>, n: nat, j: nat, k: nat)
    requires IsRun(run) && n < |run| && j < |run[n].jobs| && run[n].jobs[j].phase.Done?
    requires |run[n].jobs[j].phase.sr| <= |run[n].jobs[j].items|
    ensures Calls(run[n].log, j, Late(k)) == 0
  {
    RunKeeps(run, n);
    var b := run[n].jobs[j];
    assert Shaped(b) && Logged(run[n].log, j, b);
    AllTold(b.items);
  }

  // ---------- nothing gets stuck ----------

  /** The mutex holder can always go on. */
  lemma HolderMoves(s: State) returns (s': State)
    requires Inv(s) && s.mutex.Some?
    ensures Next(s, s') && s' != s
  {
    hide Logged;
    hide EventOk;
    hide ToldCount;
    var h := s.mutex.value;
    assert Present(s, h);
    var b := s.jobs[h.job];
    assert Shaped(b);
    match h
    case ItemOf(j, i) =>
      s' := With(s, j, b.(items := b.items[i := Told(b.items[i].r)], count := b.count + 1))
            .(mutex := None, log := s.log + [Event(j, Live(i), b.items[i].r)]);
      assert EndTell(s, s', j, i);
    case Flush(j) =>
      var p := b.phase;
      if p.at < |p.sr| {
        s' := With(s, j, b.(phase := p.(at := p.at + 1))).(log := s.log + [Event(j, Late(p.at), p.sr[p.at])]);
        assert Fire(s, s', j);
      } else {
        s' := With(s, j, b.(phase := Done(p.sr, p.delivered))).(mutex := None);
        assert EndFire(s, s', j);
      }
  }

  /** An item between spawn and exit can go on while the mutex is free. */
  lemma ItemMoves(s: State, j: nat, i: nat) returns (s': State)
    requires s.mutex.None? && j < |s.jobs| && i < |s.jobs[j].items|
    requires var x := s.jobs[j].items[i]; x.Running? || x.Stored? || x.Told?
    ensures Next(s, s') && s' != s
  {
    var b := s.jobs[j];
    match b.items[i]
    case Running =>
      s' := With(s, j, b.(items := b.items[i := Stored(CANCELLED)]));
      assert Finish(s, s', j, i, CANCELLED);
      assert s'.jobs[j].items[i] != b.items[i];
    case Stored(r) =>
      s' := With(s, j, b.(items := b.items[i := Telling(r)])).(mutex := Some(ItemOf(j, i)));
      assert BeginTell(s, s', j, i);
    case Told(r) =>
      s' := With(s, j, b.(items := b.items[i := Gone(r)], slots := b.slots - {i}));
      assert Exit(s, s', j, i);
      assert s'.jobs[j].items[i] != b.items[i];
  }

  /** With no item on its way, the spawn loop, the tail loop or the return goes on. */
  lemma LoopMoves(s: State, j: nat) returns (s': State)
    requires Inv(s) && j < |s.jobs| && s.jobs[j].phase.Fanning?
    requires forall i | 0 <= i < |s.jobs[j].items| :: s.jobs[j].items[i].NotYet? || s.jobs[j].items[i].Gone?
    ensures Next(s, s') && s' != s
  {
    hide Logged;
    hide EventOk;
    hide Exclusive;
    var b := s.jobs[j];
    assert Shaped(b);
    if b.next < |b.items| {
      assert b.slots == {};
      if b.bailed {
        s' := With(s, j, b.(items := b.items[b.next := Stored(CANCELLED)], next := b.next + 1));
        assert Tail(s, s', j);
      } else {
        s' := With(s, j, b.(items := b.items[b.next := Running], slots := b.slots + {b.next},
                            next := b.next + 1, spawned := b.spawned + 1));
        assert Spawn(s, s', j);
      }
      assert s'.jobs[j].next != b.next;
    } else {
      s' := With(s, j, b.(phase := Collected([], b.count)));
      assert Return(s, s', j, []);
      assert s'.jobs[j].phase != b.phase;
    }
  }

  /** While some job is not done, some step is possible: neither the slots nor the shared mutex can deadlock the
      group. */
  lemma SomeStepIsEnabled(s: State, j: nat) returns (s': State)
    requires Inv(s) && j < |s.jobs| && !s.jobs[j].phase.Done?
    ensures Next(s, s') && s' != s
  {
    hide Logged;
    hide EventOk;
    hide Next;
    var b := s.jobs[j];
    if s.mutex.Some? {
      s' := HolderMoves(s);
    } else if i: nat :| i < |b.items| && (b.items[i].Running? || b.items[i].Stored? || b.items[i].Told?) {
      s' := ItemMoves(s, j, i);
    } else if b.phase.Fanning? {
      assert forall i | 0 <= i < |b.items| :: !b.items[i].Telling?;
      s' := LoopMoves(s, j);
    } else {
      s' := ReturnedMoves(s, j);
    }
  }

  lemma ReturnedMoves(s: State, j: nat) returns (s': State)
    requires s.mutex.None? && j < |s.jobs| && s.jobs[j].phase.Collected?
    ensures Next(s, s') && s' != s
  {
    var b, p := s.jobs[j], s.jobs[j].phase;
    if p.delivered < |p.sr| {
      s' := With(s, j, b.(phase := Firing(p.sr, p.delivered, p.delivered))).(mutex := Some(Flush(j)));
      assert BeginFire(s, s', j);
    } else {
      s' := With(s, j, b.(phase := Done(p.sr, p.delivered)));
      assert Settle(s, s', j);
      assert s'.jobs[j].phase != p;
    }
  }
}

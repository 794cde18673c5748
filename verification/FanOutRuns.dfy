/** What the observer of a job group hears in all, and that every run of a group ends. */
module FanOutRuns {
  import opened Wrappers
  import opened FanOut

  // ---------- the results told ----------

  /** The results the observer was called with for a job, however often. */
  function Results(log: seq<Event>, j: nat): multiset<StepResult> {
    if log == [] then multiset{}
    else
      var e := log[|log| - 1];
      Results(log[..|log| - 1], j) + if e.job == j then multiset{e.result} else multiset{}
  }

  function Heard(x: Item): multiset<StepResult> {
    if x.WasTold() then multiset{x.r} else multiset{}
  }

  function ToldResults(items: seq<Item>): multiset<StepResult> {
    if items == [] then multiset{} else ToldResults(items[..|items| - 1]) + Heard(items[|items| - 1])
  }

  function FiredResults(p: Phase): multiset<StepResult> {
    match p
    case Fanning => multiset{}
    case Collected(_, _) => multiset{}
    case Firing(sr, d, at) => if d <= at <= |sr| then multiset(sr[d..at]) else multiset{}
    case Done(sr, d) => if d < |sr| then multiset(sr[d..]) else multiset{}
  }

  ghost predicate JobTallied(log: seq<Event>, j: nat, b: Job) {
    Results(log, j) == ToldResults(b.items) + FiredResults(b.phase)
  }

  ghost predicate Tallied(s: State) {
    forall j | 0 <= j < |s.jobs| :: JobTallied(s.log, j, s.jobs[j])
  }

  lemma {:induction false} ToldUpdate(items: seq<Item>, i: nat, x: Item)
    requires i < |items|
    ensures ToldResults(items[i := x]) + Heard(items[i]) == ToldResults(items) + Heard(x)
  {
    hide Heard;
    var n := |items| - 1;
    if i < n {
      assert items[i := x][..n] == items[..n][i := x];
      ToldUpdate(items[..n], i, x);
      Regroup(ToldResults(items[..n][i := x]), Heard(items[i]), ToldResults(items[..n]), Heard(x), Heard(items[n]));
    } else {
      assert items[i := x][..n] == items[..n];
      Swapped(ToldResults(items[..n]), Heard(x), Heard(items[n]));
    }
  }

  lemma Swapped<T>(a: multiset<T>, b: multiset<T>, c: multiset<T>)
    ensures a + b + c == a + c + b
  {
  }

  lemma Regroup<T>(a: multiset<T>, b: multiset<T>, c: multiset<T>, d: multiset<T>, more: multiset<T>)
    requires a + b == c + d
    ensures a + more + b == c + more + d
  {
    Swapped(a, more, b);
    Swapped(c, more, d);
  }

  lemma ResultsAppend(log: seq<Event>, e: Event, j: nat)
    ensures Results(log + [e], j) == Results(log, j) + if e.job == j then multiset{e.result} else multiset{}
  {
    assert (log + [e])[..|log|] == log;
  }

  /** A step of one job that calls nobody. */
  lemma QuietTally(s: State, s': State, j: nat)
    requires Tallied(s) && j < |s.jobs| == |s'.jobs| && s'.jobs == s.jobs[j := s'.jobs[j]] && s'.log == s.log
    requires ToldResults(s'.jobs[j].items) == ToldResults(s.jobs[j].items)
    requires FiredResults(s'.jobs[j].phase) == FiredResults(s.jobs[j].phase)
    ensures Tallied(s')
  {
    hide Results;
    hide ToldResults;
    hide FiredResults;
    forall l | 0 <= l < |s'.jobs| ensures JobTallied(s'.log, l, s'.jobs[l]) {
      assert JobTallied(s.log, l, s.jobs[l]);
    }
  }

  lemma ItemTally(s: State, s': State, j: nat, i: nat, x: Item)
    requires Tallied(s) && j < |s.jobs| == |s'.jobs| && i < |s.jobs[j].items| && s'.log == s.log
    requires s'.jobs == s.jobs[j := s'.jobs[j]] && s'.jobs[j].phase == s.jobs[j].phase
    requires s'.jobs[j].items == s.jobs[j].items[i := x] && Heard(x) == Heard(s.jobs[j].items[i])
    ensures Tallied(s')
  {
    hide ToldResults;
    hide Heard;
    ToldUpdate(s.jobs[j].items, i, x);
    SameRest(ToldResults(s'.jobs[j].items), ToldResults(s.jobs[j].items), Heard(x));
    QuietTally(s, s', j);
  }

  lemma LoudTally(s: State, s': State, j: nat, r: StepResult, src: Source)
    requires Tallied(s) && j < |s.jobs| == |s'.jobs| && s'.jobs == s.jobs[j := s'.jobs[j]]
    requires s'.log == s.log + [Event(j, src, r)]
    requires ToldResults(s'.jobs[j].items) + FiredResults(s'.jobs[j].phase)
             == ToldResults(s.jobs[j].items) + FiredResults(s.jobs[j].phase) + multiset{r}
    ensures Tallied(s')
  {
    hide Results;
    hide ToldResults;
    hide FiredResults;
    forall l | 0 <= l < |s'.jobs| ensures JobTallied(s'.log, l, s'.jobs[l]) {
      assert JobTallied(s.log, l, s.jobs[l]);
      ResultsAppend(s.log, Event(j, src, r), l);
    }
  }

  lemma EndTellTally(s: State, s': State, j: nat, i: nat)
    requires Tallied(s) && EndTell(s, s', j, i)
    ensures Tallied(s')
  {
    hide Tallied;
    hide FiredResults;
    hide ToldResults;
    var r := s.jobs[j].items[i].r;
    ToldUpdate(s.jobs[j].items, i, Told(r));
    var told, fired := ToldResults(s.jobs[j].items), FiredResults(s.jobs[j].phase);
    assert ToldResults(s'.jobs[j].items) == told + multiset{r};
    assert told + multiset{r} + fired == told + fired + multiset{r};
    LoudTally(s, s', j, r, Live(i));
  }

  lemma FireTally(s: State, s': State, j: nat)
    requires Inv(s) && Tallied(s) && Fire(s, s', j)
    ensures Tallied(s')
  {
    hide Tallied;
    hide Logged;
    hide EventOk;
    hide Exclusive;
    hide ToldResults;
    var p := s.jobs[j].phase;
    assert Shaped(s.jobs[j]);
    assert p.sr[p.delivered..p.at + 1] == p.sr[p.delivered..p.at] + [p.sr[p.at]];
    LoudTally(s, s', j, p.sr[p.at], Late(p.at));
  }

  lemma PhaseTally(s: State, s': State, j: nat)
    requires Inv(s) && Tallied(s)
    requires || (exists sr :: Return(s, s', j, sr)) || BeginFire(s, s', j) || EndFire(s, s', j) || Settle(s, s', j)
    ensures Tallied(s')
  {
    hide Tallied;
    hide Logged;
    hide EventOk;
    hide Exclusive;
    hide ToldResults;
    assert Shaped(s.jobs[j]);
    var p := s.jobs[j].phase;
    if EndFire(s, s', j) {
      assert p.sr[p.delivered..p.at] == p.sr[p.delivered..];
    }
    QuietTally(s, s', j);
  }

  lemma FanTally(s: State, s': State, j: nat)
    requires Inv(s) && Tallied(s) && (Spawn(s, s', j) || Tail(s, s', j))
    ensures Tallied(s')
  {
    hide Tallied;
    hide Logged;
    hide EventOk;
    hide Exclusive;
    hide ToldResults;
    assert Shaped(s.jobs[j]);
    ItemTally(s, s', j, s.jobs[j].next, s'.jobs[j].items[s.jobs[j].next]);
  }

  lemma NextTallies(s: State, s': State)
    requires Inv(s) && Tallied(s) && Next(s, s')
    ensures Tallied(s')
  {
    hide Inv;
    hide Tallied;
    hide ToldResults;
    hide FiredResults;
    if Cancel(s, s') {
      CancelTally(s, s');
    } else if j: nat :| Spawn(s, s', j) || Tail(s, s', j) {
      FanTally(s, s', j);
    } else if j: nat :| Bail(s, s', j) {
      QuietTally(s, s', j);
    } else if j: nat, i: nat, r :| Finish(s, s', j, i, r) {
      ItemTally(s, s', j, i, Stored(r));
    } else if j: nat, i: nat :| BeginTell(s, s', j, i) {
      ItemTally(s, s', j, i, Telling(s.jobs[j].items[i].r));
    } else if j: nat, i: nat :| Exit(s, s', j, i) {
      ItemTally(s, s', j, i, Gone(s.jobs[j].items[i].r));
    } else if j: nat, i: nat :| EndTell(s, s', j, i) {
      EndTellTally(s, s', j, i);
    } else if j: nat :| Fire(s, s', j) {
      FireTally(s, s', j);
    } else if j: nat, sr :| Return(s, s', j, sr) {
      PhaseTally(s, s', j);
    } else {
      var j: nat :| BeginFire(s, s', j) || EndFire(s, s', j) || Settle(s, s', j);
      PhaseTally(s, s', j);
    }
  }

  lemma CancelTally(s: State, s': State)
    requires Tallied(s) && Cancel(s, s')
    ensures Tallied(s')
  {
    forall l | 0 <= l < |s'.jobs| ensures JobTallied(s'.log, l, s'.jobs[l]) {
      assert JobTallied(s.log, l, s.jobs[l]);
    }
  }

  lemma {:induction false} NothingTold(items: seq<Item>)
    requires forall i | 0 <= i < |items| :: items[i].NotYet?
    ensures ToldResults(items) == multiset{}
  {
    if items != [] {
      NothingTold(items[..|items| - 1]);
    }
  }

  lemma {:induction false} RunTallies(run: seq<State>, n: nat)
    requires IsRun(run) && n < |run|
    ensures Tallied(run[n])
  {
    hide Next;
    hide Inv;
    if n == 0 {
      forall j | 0 <= j < |run[0].jobs| ensures JobTallied(run[0].log, j, run[0].jobs[j]) {
        NothingTold(run[0].jobs[j].items);
      }
    } else {
      hide Tallied;
      RunTallies(run, n - 1);
      RunKeeps(run, n - 1);
      assert Next(run[n - 1], run[n - 1 + 1]);
      NextTallies(run[n - 1], run[n]);
    }
  }

  lemma {:induction false} AllHeard(items: seq<Item>)
    requires forall i | 0 <= i < |items| :: items[i].Gone?
    ensures ToldResults(items) == multiset(FanResults(items))
  {
    if items != [] {
      var n := |items| - 1;
      AllHeard(items[..n]);
      assert FanResults(items) == FanResults(items[..n]) + [items[n].r];
    }
  }

  /** What the observer hears of a finished job: every item's result, and the returned steps beyond as many as there
      were items. */
  lemma HeardOfJob(run: seq<State>, n: nat, j: nat)
    requires IsRun(run) && n < |run| && j < |run[n].jobs| && run[n].jobs[j].phase.Done?
    ensures forall i | 0 <= i < |run[n].jobs[j].items| :: run[n].jobs[j].items[i].Gone?
    ensures var b := run[n].jobs[j];
            Results(run[n].log, j) == multiset(FanResults(b.items))
              + if |b.items| < |b.phase.sr| then multiset(b.phase.sr[|b.items|..]) else multiset{}
  {
    hide Inv;
    hide Next;
    RunKeeps(run, n);
    RunTallies(run, n);
    AllGone(run[n], j);
    DeliveredAll(run[n], j);
    assert JobTallied(run[n].log, j, run[n].jobs[j]);
    AllHeard(run[n].jobs[j].items);
  }

  lemma DeliveredAll(s: State, j: nat)
    requires Inv(s) && j < |s.jobs| && !s.jobs[j].phase.Fanning?
    ensures s.jobs[j].phase.delivered == |s.jobs[j].items|
  {
    assert Shaped(s.jobs[j]);
    AllTold(s.jobs[j].items);
  }

  /** The observer hears exactly the returned steps, each as often as it was returned, if and only if the job
      returned the results of its fan-out first, in any order, and whatever else after them. */
  lemma HeardIsReturnedIff(run: seq<State>, n: nat, j: nat)
    requires IsRun(run) && n < |run| && j < |run[n].jobs| && run[n].jobs[j].phase.Done?
    ensures forall i | 0 <= i < |run[n].jobs[j].items| :: run[n].jobs[j].items[i].Gone?
    ensures var b := run[n].jobs[j];
            Results(run[n].log, j) == multiset(b.phase.sr) <==>
            |b.items| <= |b.phase.sr| && multiset(b.phase.sr[..|b.items|]) == multiset(FanResults(b.items))
  {
    hide IsRun;
    HeardOfJob(run, n, j);
    var b := run[n].jobs[j];
    var sr, k, fan := b.phase.sr, |b.items|, FanResults(b.items);
    if k <= |sr| {
      assert sr == sr[..k] + sr[k..];
      SameRest(multiset(sr[..k]), multiset(fan), multiset(sr[k..]));
    } else {
      assert |multiset(fan)| == k && |multiset(sr)| == |sr|;
    }
  }

  lemma SameRest<T>(a: multiset<T>, b: multiset<T>, rest: multiset<T>)
    ensures a + rest == b + rest <==> a == b
  {
    if a + rest == b + rest {
      forall x ensures a[x] == b[x] {
        assert (a + rest)[x] == (b + rest)[x];
      }
    }
  }

  /** A job that fails after a fan-out returns one failing step, and the observer never hears of it. */
  lemma ErrorAfterFanOut(run: seq<State>, n: nat, j: nat, fail: StepResult)
    requires IsRun(run) && n < |run| && j < |run[n].jobs| && run[n].jobs[j].phase.Done?
    requires run[n].jobs[j].phase.sr == [fail] && |run[n].jobs[j].items| >= 1
    requires forall i | 0 <= i < |run[n].jobs[j].items| && run[n].jobs[j].items[i].Gone? ::
               run[n].jobs[j].items[i].r != fail
    ensures fail !in Results(run[n].log, j) && Results(run[n].log, j) != multiset([fail])
  {
    hide IsRun;
    HeardOfJob(run, n, j);
    assert fail !in FanResults(run[n].jobs[j].items);
  }

  /** Such a run: one item, told with its result, and then the failure, never told. */
  lemma UnheardFailure(r: StepResult, fail: StepResult) returns (run: seq<State>)
    ensures IsRun(run) && |run| == 8 && |run[7].jobs| == 1
    ensures var b := run[7].jobs[0];
            b.phase.Done? && b.phase.sr == [fail] && b.items == [Gone(r)] && Results(run[7].log, 0) == multiset{r}
  {
    var b0 := NewJob(1, 1);
    var b1 := b0.(items := b0.items[0 := Running], slots := b0.slots + {0}, next := 1, spawned := 1);
    var b2 := b1.(items := b1.items[0 := Stored(r)]);
    var b3 := b2.(items := b2.items[0 := Telling(r)]);
    var b4 := b3.(items := b3.items[0 := Told(r)], count := 1);
    var b5 := b4.(items := b4.items[0 := Gone(r)], slots := b4.slots - {0});
    var s0 := State([b0], None, [], false);
    var s1 := With(s0, 0, b1);
    var s2 := With(s1, 0, b2);
    var s3 := With(s2, 0, b3).(mutex := Some(ItemOf(0, 0)));
    var s4 := With(s3, 0, b4).(mutex := None, log := s3.log + [Event(0, Live(0), r)]);
    var s5 := With(s4, 0, b5);
    var s6 := With(s5, 0, b5.(phase := Collected([fail], 1)));
    var s7 := With(s6, 0, b5.(phase := Done([fail], 1)));
    assert Spawn(s0, s1, 0);
    assert Finish(s1, s2, 0, 0, r);
    assert BeginTell(s2, s3, 0, 0);
    assert EndTell(s3, s4, 0, 0);
    assert Exit(s4, s5, 0, 0);
    assert Return(s5, s6, 0, [fail]);
    assert Settle(s6, s7, 0);
    run := [s0, s1, s2, s3, s4, s5, s6, s7];
    forall n | 0 <= n < |run| - 1 ensures Next(run[n], run[n + 1]) {
    }
  }

  // ---------- every run ends ----------

  function ItemWork(x: Item): nat {
    match x
    case NotYet => 5
    case Running => 4
    case Stored(_) => 3
    case Telling(_) => 2
    case Told(_) => 1
    case Gone(_) => 0
  }

  function WorkOf(items: seq<Item>): nat {
    if items == [] then 0 else WorkOf(items[..|items| - 1]) + ItemWork(items[|items| - 1])
  }

  function PhaseWork(p: Phase, most: nat): nat {
    match p
    case Fanning => most + 3
    case Collected(sr, d) => (if d < |sr| then |sr| - d else 0) + 2
    case Firing(sr, _, at) => (if at < |sr| then |sr| - at else 0) + 1
    case Done(_, _) => 0
  }

  /** The steps left to a job that returns at most `most` steps. */
  function JobWork(b: Job, most: nat): nat {
    WorkOf(b.items) + PhaseWork(b.phase, most) + if b.bailed then 0 else 1
  }

  function JobsWork(jobs: seq<Job>, most: nat): nat {
    if jobs == [] then 0 else JobsWork(jobs[..|jobs| - 1], most) + JobWork(jobs[|jobs| - 1], most)
  }

  function Measure(s: State, most: nat): nat {
    JobsWork(s.jobs, most) + if s.cancelled then 0 else 1
  }

  /** No job returned more than `most` steps. */
  ghost predicate ReturnsAtMost(s: State, most: nat) {
    forall j | 0 <= j < |s.jobs| && !s.jobs[j].phase.Fanning? :: |s.jobs[j].phase.sr| <= most
  }

  lemma {:induction false} WorkUpdate(items: seq<Item>, i: nat, x: Item)
    requires i < |items|
    ensures WorkOf(items[i := x]) == WorkOf(items) - ItemWork(items[i]) + ItemWork(x)
  {
    hide ItemWork;
    var n := |items| - 1;
    if i < n {
      assert items[i := x][..n] == items[..n][i := x];
      WorkUpdate(items[..n], i, x);
    } else {
      assert items[i := x][..n] == items[..n];
    }
  }

  lemma {:induction false} JobsUpdate(jobs: seq<Job>, j: nat, b: Job, most: nat)
    requires j < |jobs|
    ensures JobsWork(jobs[j := b], most) == JobsWork(jobs, most) - JobWork(jobs[j], most) + JobWork(b, most)
  {
    hide JobWork;
    var n := |jobs| - 1;
    if j < n {
      assert jobs[j := b][..n] == jobs[..n][j := b];
      JobsUpdate(jobs[..n], j, b, most);
    } else {
      assert jobs[j := b][..n] == jobs[..n];
    }
  }

  /** One job's step uses up its work. */
  lemma JobUses(s: State, s': State, j: nat, most: nat)
    requires j < |s.jobs| == |s'.jobs| && s'.jobs == s.jobs[j := s'.jobs[j]] && s'.cancelled == s.cancelled
    requires JobWork(s'.jobs[j], most) < JobWork(s.jobs[j], most)
    ensures Measure(s', most) < Measure(s, most)
  {
    hide JobWork;
    hide JobsWork;
    JobsUpdate(s.jobs, j, s'.jobs[j], most);
  }

  lemma ItemUses(s: State, s': State, j: nat, i: nat, x: Item, most: nat)
    requires j < |s.jobs| == |s'.jobs| && s'.jobs == s.jobs[j := s'.jobs[j]] && s'.cancelled == s.cancelled
    requires i < |s.jobs[j].items| && s'.jobs[j].items == s.jobs[j].items[i := x]
    requires s'.jobs[j].phase == s.jobs[j].phase && s'.jobs[j].bailed == s.jobs[j].bailed
    requires ItemWork(x) < ItemWork(s.jobs[j].items[i])
    ensures Measure(s', most) < Measure(s, most)
  {
    hide ItemWork;
    hide WorkOf;
    hide Measure;
    WorkUpdate(s.jobs[j].items, i, x);
    JobUses(s, s', j, most);
  }

  lemma FanUses(s: State, s': State, j: nat, most: nat)
    requires Inv(s) && (Spawn(s, s', j) || Tail(s, s', j))
    ensures Measure(s', most) < Measure(s, most)
  {
    hide Measure;
    hide Logged;
    hide EventOk;
    hide Exclusive;
    assert Shaped(s.jobs[j]);
    ItemUses(s, s', j, s.jobs[j].next, s'.jobs[j].items[s.jobs[j].next], most);
  }

  lemma PhaseUses(s: State, s': State, j: nat, most: nat)
    requires ReturnsAtMost(s', most)
    requires || (exists sr :: Return(s, s', j, sr)) || BeginFire(s, s', j) || Fire(s, s', j) || EndFire(s, s', j)
             || Settle(s, s', j)
    ensures Measure(s', most) < Measure(s, most)
  {
    hide Measure;
    hide WorkOf;
    JobUses(s, s', j, most);
  }

  lemma StepUses(s: State, s': State, most: nat)
    requires Inv(s) && Next(s, s') && ReturnsAtMost(s', most)
    ensures Measure(s', most) < Measure(s, most)
  {
    hide Inv;
    hide ReturnsAtMost;
    if Cancel(s, s') {
    } else if j: nat :| Spawn(s, s', j) || Tail(s, s', j) {
      FanUses(s, s', j, most);
    } else if j: nat :| Bail(s, s', j) {
      hide WorkOf;
      hide Measure;
      JobUses(s, s', j, most);
    } else if j: nat, i: nat, r :| Finish(s, s', j, i, r) {
      hide Measure;
      ItemUses(s, s', j, i, Stored(r), most);
    } else if j: nat, i: nat :| BeginTell(s, s', j, i) {
      hide Measure;
      ItemUses(s, s', j, i, Telling(s.jobs[j].items[i].r), most);
    } else if j: nat, i: nat :| EndTell(s, s', j, i) {
      hide Measure;
      ItemUses(s, s', j, i, Told(s.jobs[j].items[i].r), most);
    } else if j: nat, i: nat :| Exit(s, s', j, i) {
      hide Measure;
      ItemUses(s, s', j, i, Gone(s.jobs[j].items[i].r), most);
    } else if j: nat, sr :| Return(s, s', j, sr) {
      hide Measure;
      PhaseUses(s, s', j, most);
    } else {
      hide Measure;
      var j: nat :| BeginFire(s, s', j) || Fire(s, s', j) || EndFire(s, s', j) || Settle(s, s', j);
      PhaseUses(s, s', j, most);
    }
  }

  /** A run in which no job returns more than `most` steps is no longer than the work it starts with: with
      SomeStepIsEnabled, it ends with every job done. */
  lemma {:induction false} RunsAreFinite(run: seq<State>, most: nat, n: nat)
    requires IsRun(run) && n < |run| && forall m | 0 <= m < |run| :: ReturnsAtMost(run[m], most)
    ensures Measure(run[n], most) + n <= Measure(run[0], most)
  {
    hide Next;
    hide Inv;
    hide Measure;
    hide ReturnsAtMost;
    if n > 0 {
      RunsAreFinite(run, most, n - 1);
      RunKeeps(run, n - 1);
      assert Next(run[n - 1], run[n - 1 + 1]);
      StepUses(run[n - 1], run[n], most);
    }
  }
}

/** Hold against the clock: how many ticks may be missed, and how soon a loss is noticed. */
module LockTiming {
  import opened Arithmetic
  import opened LockBackends
  import opened LockRuns

  // ---------- missed ticks ----------

  /** A couple of missed ticks: no more than the two ticks after its last successful request have passed a holder by,
      and the answer to that request held up the ticker by at most `d`. */
  predicate MissedTwo(c: Config, s: State, i: nat, d: int) {
    && i < |s.holds| && s.holds[i].held && !s.holds[i].released
    && s.holds[i].waited <= d && s.now <= s.holds[i].dueAfter + c.renewInterval
  }

  /** In every run, two missed ticks leave the key with a holder whose acquire was answered within `d`. */
  ghost predicate MissedTicksAreSafe(c: Config, d: int) {
    forall run: seq<State>, n: nat, i: nat | IsRun(c, run) && n < |run| && MissedTwo(c, run[n], i, d) ::
      Holds(run[n].store, run[n].now, run[n].holds[i].key, run[n].holds[i].token)
  }

  lemma TicksInLease(c: Config, run: seq<State>, n: nat, i: nat, d: int)
    requires c.ttl > 0 && IsRun(c, run) && n < |run| && MissedTwo(c, run[n], i, d)
    requires d + 2 * c.renewInterval < RenewLease(c.ttl)
    ensures Holds(run[n].store, run[n].now, run[n].holds[i].key, run[n].holds[i].token)
  {
    RunKeeps(c, run, n);
    assert Honest(c, run[n].now, run[n].holds[i]);
    HolderHasTheKey(c, run, n, i);
  }

  /** An acquire executed at once and answered `d` later; then nothing happens until the first lease is over. */
  lemma SlowAcquireRun(c: Config, d: int) returns (run: seq<State>)
    requires ConfigOk(c) && d >= 0
    ensures IsRun(c, run) && |run| == 6 && |run[5].holds| == 1
    ensures var h := run[5].holds[0];
            && h.held && h.watching && !h.cancelled && !h.released && h.waited == d && h.dueAfter == d + c.renewInterval
            && run[5].now == (if d < AcquireLease(c.ttl) then AcquireLease(c.ttl) else d)
            && !Holds(run[5].store, run[5].now, h.key, h.token)
  {
    var k, t, lease := "k", "t", AcquireLease(c.ttl);
    var late := if d < lease then lease else d;
    var h1 := NewHold(k, t, 0);
    var h2 := h1.(acquire := Executed(0, true), expiry := lease);
    var h3 := h2.(held := true, watching := true, knownFrom := 0, waited := d, dueAfter := d + c.renewInterval,
                  nextTick := d + c.renewInterval);
    var st: Store := map[k := Lease(t, lease)];
    var s0, s1, s2 := State(0, map[], []), State(0, map[], [h1]), State(0, st, [h2]);
    var s3, s4, s5 := State(d, st, [h2]), State(d, st, [h3]), State(late, st, [h3]);
    assert Enter(s0, s1, k, t);
    assert ExecAcquire(c, s1, s2, 0);
    assert Tick(s2, s3);
    assert Granted(c, s3, s4, 0) && ClientStep(c, s3, s4, 0);
    assert Tick(s4, s5);
    run := [s0, s1, s2, s3, s4, s5];
    forall n | 0 <= n < |run| - 1 ensures Next(c, run[n], run[n + 1]) {
    }
  }

  /** Two missed ticks cannot expire a live lease exactly when the wait for the acquire's answer and two intervals are
      less than the whole milliseconds of the TTL. */
  lemma MissedTicksIff(c: Config, d: int)
    requires ConfigOk(c) && d >= 0
    ensures MissedTicksAreSafe(c, d) <==> d + 2 * c.renewInterval < RenewLease(c.ttl)
  {
    hide IsRun;
    if d + 2 * c.renewInterval < RenewLease(c.ttl) {
      forall run: seq<State>, n: nat, i: nat | IsRun(c, run) && n < |run| && MissedTwo(c, run[n], i, d)
        ensures Holds(run[n].store, run[n].now, run[n].holds[i].key, run[n].holds[i].token)
      {
        TicksInLease(c, run, n, i, d);
      }
    } else {
      var run, n: nat, i: nat := [], 5, 0;
      if c.ttl >= MILLI {
        run := SlowAcquireRun(c, d);
      } else {
        run := LapsedRun(c);
        n := 8;
      }
      assert MissedTwo(c, run[n], i, d);
      assert !Holds(run[n].store, run[n].now, run[n].holds[i].key, run[n].holds[i].token);
    }
  }

  /** An acquire answered at once is safe with every accepted interval of a millisecond or more and every TTL of whole
      milliseconds; and whatever is configured, some slow acquire loses the key within two ticks. */
  lemma AcceptedIntervals(c: Config)
    requires ConfigOk(c)
    ensures c.renewInterval >= MILLI || c.ttl % MILLI == 0 ==> MissedTicksAreSafe(c, 0)
    ensures exists d :: 0 <= d <= c.ttl && !MissedTicksAreSafe(c, d)
  {
    UnitStep(c.ttl, MILLI);
    MissedTicksIff(c, 0);
    MissedTicksIff(c, RenewLease(c.ttl));
  }

  // ---------- how soon a loss is noticed ----------

  /** A loss is not noticed the instant it happens: the holder goes on, uncancelled, with the key gone. */
  lemma LossGoesUnnoticed(c: Config) returns (run: seq<State>, n: nat)
    requires ConfigOk(c)
    ensures IsRun(c, run) && n < |run| && |run[n].holds| == 1
    ensures var h := run[n].holds[0];
            h.held && h.watching && !h.cancelled && !Holds(run[n].store, run[n].now, h.key, h.token)
  {
    run := LapsedRun(c);
    n := 8;
  }

  /** The watchdog takes a due tick within `taking`, and the answer to a renewal reaches it within `answering`. */
  predicate Prompt(s: State, i: nat, taking: int, answering: int) {
    i < |s.holds| && s.holds[i].watching ==>
      if s.holds[i].renew.NoRpc? then s.now <= s.holds[i].nextTick + taking
      else s.now <= s.holds[i].renew.at + answering
  }

  /** What a call whose key was gone by `lost` may still be doing before it is cancelled: waiting for the next tick, for
      the answer to a renewal sent before, or for that of one that cannot succeed. */
  ghost predicate Doomed(c: Config, s: State, i: nat, lost: int, taking: int)
    requires i < |s.holds|
  {
    var h := s.holds[i];
    && WasGranted(h) && h.held && (h.released ==> h.cancelled)
    && !Holds(s.store, s.now, h.key, h.token) && s.now >= lost
    && (!h.cancelled ==>
          && h.watching
          && (|| (h.renew.NoRpc? && h.nextTick <= lost + c.renewInterval)
              || (!h.renew.NoRpc? && h.renew.at <= lost && h.nextTick <= lost + c.renewInterval)
              || (!h.renew.NoRpc? && h.renew.at <= lost + c.renewInterval + taking
                  && !(h.renew.Executed? && h.renew.ok))))
  }

  lemma LossDooms(c: Config, s: State, i: nat, taking: int)
    requires Inv(c, s) && i < |s.holds| && s.holds[i].held && !Holds(s.store, s.now, s.holds[i].key, s.holds[i].token)
    ensures Doomed(c, s, i, s.now, taking)
  {
    assert Honest(c, s.now, s.holds[i]);
  }

  /** The server gives a lost key to no token that it was granted to before. */
  lemma ServerNeverGivesBack(c: Config, s: State, s': State, i: nat, j: nat)
    requires DistinctTokens(s.holds) && i < |s.holds| && j < |s.holds| && WasGranted(s.holds[i])
    requires ExecAcquire(c, s, s', j) || ExecRenew(c, s, s', j) || ExecRelease(s, s', j)
    requires !Holds(s.store, s.now, s.holds[i].key, s.holds[i].token)
    ensures !Holds(s'.store, s'.now, s.holds[i].key, s.holds[i].token)
  {
    if j != i {
      OtherTokens(s, i, j);
    }
  }

  /** A lost key does not come back to its token. */
  lemma StaysLost(c: Config, s: State, s': State, i: nat)
    requires Inv(c, s) && Next(c, s, s') && i < |s.holds| && WasGranted(s.holds[i])
    requires !Holds(s.store, s.now, s.holds[i].key, s.holds[i].token)
    ensures i < |s'.holds| && s'.holds[i].key == s.holds[i].key && s'.holds[i].token == s.holds[i].token
    ensures WasGranted(s'.holds[i]) && !Holds(s'.store, s'.now, s.holds[i].key, s.holds[i].token) && s'.now >= s.now
  {
    hide ClientStep;
    assert DistinctTokens(s.holds);
    hide Inv;
    hide DistinctTokens;
    if j :| ClientStep(c, s, s', j) {
      ClientShape(c, s, s', j);
    } else if j :| ExecAcquire(c, s, s', j) {
      hide Holds;
      ServerNeverGivesBack(c, s, s', i, j);
    } else if j :| ExecRenew(c, s, s', j) {
      hide Holds;
      ServerNeverGivesBack(c, s, s', i, j);
    } else if j :| ExecRelease(s, s', j) {
      hide Holds;
      ServerNeverGivesBack(c, s, s', i, j);
    }
  }

  lemma DoomedStep(c: Config, s: State, s': State, i: nat, lost: int, taking: int, answering: int)
    requires Inv(c, s) && Next(c, s, s') && i < |s.holds| && Doomed(c, s, i, lost, taking)
    requires Prompt(s, i, taking, answering)
    ensures i < |s'.holds| && Doomed(c, s', i, lost, taking)
  {
    StaysLost(c, s, s', i);
    hide Inv;
    if j :| ClientStep(c, s, s', j) {
      if j == i {
        DoomedClient(c, s, s', i, lost, taking, answering);
      } else {
        ClientShape(c, s, s', j);
      }
    } else if j :| ExecAcquire(c, s, s', j) {
    } else if j :| ExecRenew(c, s, s', j) {
    } else if j :| ExecRelease(s, s', j) {
    }
  }

  lemma DoomedClient(c: Config, s: State, s': State, i: nat, lost: int, taking: int, answering: int)
    requires i < |s.holds| == |s'.holds| && ClientStep(c, s, s', i) && Doomed(c, s, i, lost, taking)
    requires Prompt(s, i, taking, answering)
    requires !Holds(s'.store, s'.now, s'.holds[i].key, s'.holds[i].token)
    ensures Doomed(c, s', i, lost, taking)
  {
  }

  lemma {:induction false} StaysDoomed(c: Config, run: seq<State>, m: nat, n: nat, i: nat, taking: int, answering: int)
    requires c.ttl > 0 && IsRun(c, run) && m <= n < |run| && i < |run[m].holds| && run[m].holds[i].held
    requires !Holds(run[m].store, run[m].now, run[m].holds[i].key, run[m].holds[i].token)
    requires forall k | m <= k < |run| :: Prompt(run[k], i, taking, answering)
    ensures i < |run[n].holds| && Doomed(c, run[n], i, run[m].now, taking)
    decreases n - m
  {
    hide Next;
    hide Doomed;
    hide Prompt;
    hide Inv;
    if m == n {
      RunKeeps(c, run, m);
      LossDooms(c, run[m], i, taking);
    } else {
      StaysDoomed(c, run, m, n - 1, i, taking, answering);
      RunKeeps(c, run, n - 1);
      assert Next(c, run[n - 1], run[n - 1 + 1]);
      DoomedStep(c, run[n - 1], run[n], i, run[m].now, taking, answering);
    }
  }

  /** When due ticks are taken and renewals answered in time, a holder is cancelled within an interval and both
      delays of losing its key, however it lost it. */
  lemma LossIsNoticed(c: Config, run: seq<State>, m: nat, n: nat, i: nat, taking: int, answering: int)
    requires c.ttl > 0 && c.renewInterval > 0 && taking >= 0 && answering >= 0
    requires IsRun(c, run) && m <= n < |run| && i < |run[m].holds| && run[m].holds[i].held
    requires !Holds(run[m].store, run[m].now, run[m].holds[i].key, run[m].holds[i].token)
    requires forall k | m <= k < |run| :: Prompt(run[k], i, taking, answering)
    ensures i < |run[n].holds|
    ensures run[n].holds[i].cancelled || run[n].now <= run[m].now + c.renewInterval + taking + answering
  {
    hide IsRun;
    StaysDoomed(c, run, m, n, i, taking, answering);
    assert Prompt(run[n], i, taking, answering);
  }
}

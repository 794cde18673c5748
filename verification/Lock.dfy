/** The token-fenced lock: the in-process backend, the leased one, and how the second refines the first. */
module LockBackends {
  import opened Arithmetic

  // ---------- in process ----------

  /** Held keys and the tokens of their holders. */
  type Held = map<string, string>

  function LocalAcquire(h: Held, key: string, token: string): (Held, bool) {
    if key in h then (h, false) else (h[key := token], true)
  }

  function LocalRenew(h: Held, key: string, token: string): bool {
    key in h && h[key] == token
  }

  function LocalRelease(h: Held, key: string, token: string): Held {
    if key in h && h[key] == token then h - {key} else h
  }

  class LocalLock {
    var held: Held

    constructor ()
      ensures held == map[]
    {
      held := map[];
    }

    /** `minted` is the token drawn for this call. */
    method Acquire(key: string, minted: string) returns (token: string, acquired: bool)
      modifies this
      ensures (held, acquired) == LocalAcquire(old(held), key, minted)
      ensures token == if acquired then minted else ""
    {
      if key in held {
        return "", false;
      }
      held := held[key := minted];
      return minted, true;
    }

    method Renew(key: string, token: string) returns (stillHeld: bool)
      ensures stillHeld == LocalRenew(held, key, token)
    {
      stillHeld := key in held && held[key] == token;
    }

    method Release(key: string, token: string)
      modifies this
      ensures held == LocalRelease(old(held), key, token)
    {
      if key in held && held[key] == token {
        held := held - {key};
      }
    }
  }

  // ---------- leased ----------

  /** A stored key; it is there until its expiry. */
  datatype Lease = Lease(token: string, expiry: int)
  type Store = map<string, Lease>

  predicate Live(s: Store, now: int, key: string) {
    key in s && now < s[key].expiry
  }

  predicate Holds(s: Store, now: int, key: string, token: string) {
    Live(s, now, key) && s[key].token == token
  }

  /** The lease SET PX gives: whole milliseconds, at least one. */
  function AcquireLease(ttl: int): int {
    if ttl < MILLI then MILLI else ttl / MILLI * MILLI
  }

  /** The lease PEXPIRE gives: whole milliseconds, possibly none, which deletes the key. */
  function RenewLease(ttl: int): int {
    ttl / MILLI * MILLI
  }

  function ServerAcquire(s: Store, now: int, key: string, token: string, ttl: int): (Store, bool) {
    if Live(s, now, key) then (s, false) else (s[key := Lease(token, now + AcquireLease(ttl))], true)
  }

  function ServerRenew(s: Store, now: int, key: string, token: string, ttl: int): (Store, bool) {
    if !Holds(s, now, key, token) then (s, false)
    else if RenewLease(ttl) <= 0 then (s - {key}, true)
    else (s[key := Lease(token, now + RenewLease(ttl))], true)
  }

  function ServerRelease(s: Store, now: int, key: string, token: string): Store {
    if Holds(s, now, key, token) then s - {key} else s
  }

  class RedisLock {
    const ttl: int
    var store: Store

    constructor (ttl: int)
      ensures this.ttl == ttl && store == map[]
    {
      this.ttl, store := ttl, map[];
    }

    method Acquire(now: int, key: string, minted: string) returns (token: string, acquired: bool)
      modifies this
      ensures (store, acquired) == ServerAcquire(old(store), now, key, minted, ttl)
      ensures token == if acquired then minted else ""
    {
      if key in store && now < store[key].expiry {
        return "", false;
      }
      store := store[key := Lease(minted, now + AcquireLease(ttl))];
      return minted, true;
    }

    /** The compare-then-PEXPIRE script. */
    method Renew(now: int, key: string, token: string) returns (held: bool)
      modifies this
      ensures (store, held) == ServerRenew(old(store), now, key, token, ttl)
    {
      if !Holds(store, now, key, token) {
        return false;
      }
      if ttl / MILLI <= 0 {
        store := store - {key};
      } else {
        store := store[key := Lease(token, now + RenewLease(ttl))];
      }
      held := true;
    }

    /** The compare-then-DEL script. */
    method Release(now: int, key: string, token: string)
      modifies this
      ensures store == ServerRelease(old(store), now, key, token)
    {
      if Holds(store, now, key, token) {
        store := store - {key};
      }
    }
  }

  // ---------- refinement ----------

  /** The leased store as the in-process lock sees it: the keys not yet expired. */
  function View(s: Store, now: int): Held {
    map k | k in s && now < s[k].expiry :: s[k].token
  }

  /** Acquire and release on the leased backend act on the unexpired keys exactly as on the in-process backend, and a
      renewal answers as it does; it also leaves the keys as it does exactly when it grants at least a millisecond or
      finds nothing to renew. */
  lemma LeasedRefinesLocal(s: Store, now: int, key: string, token: string, ttl: int)
    ensures var (s', ok) := ServerAcquire(s, now, key, token, ttl);
            (View(s', now), ok) == LocalAcquire(View(s, now), key, token)
    ensures var (s', ok) := ServerRenew(s, now, key, token, ttl);
            && ok == LocalRenew(View(s, now), key, token)
            && (View(s', now) == View(s, now) <==> ttl >= MILLI || !Holds(s, now, key, token))
    ensures View(ServerRelease(s, now, key, token), now) == LocalRelease(View(s, now), key, token)
  {
    assert ttl >= MILLI <==> ttl / MILLI >= 1;
    assert key in View(s, now) <==> Live(s, now, key);
    if ttl < MILLI && Holds(s, now, key, token) {
      assert key !in View(ServerRenew(s, now, key, token, ttl).0, now);
    }
    assert ServerAcquire(s, now, key, token, ttl).1 ==>
      View(ServerAcquire(s, now, key, token, ttl).0, now) == View(s, now)[key := token];
    assert Holds(s, now, key, token) ==> View(ServerRelease(s, now, key, token), now) == View(s, now) - {key};
  }

  /** Time only drops keys. */
  lemma TimeOnlyExpires(s: Store, now: int, later: int)
    requires now <= later
    ensures forall k | k in View(s, later) :: k in View(s, now) && View(s, now)[k] == View(s, later)[k]
  {
  }

  /** A token that does not hold the key changes nothing. */
  lemma StaleCallsAreNoOps(s: Store, now: int, key: string, token: string, ttl: int)
    requires !Holds(s, now, key, token)
    ensures ServerRenew(s, now, key, token, ttl) == (s, false) && ServerRelease(s, now, key, token) == s
  {
  }

  /** A renewal that reports the key held leaves it held exactly when the lease is at least a millisecond: below that,
      PEXPIRE 0 deletes the key and still answers 1. */
  lemma RenewalLeavesKeyHeld(s: Store, now: int, key: string, token: string, ttl: int)
    requires Holds(s, now, key, token) && ttl > 0
    ensures ServerRenew(s, now, key, token, ttl).1
    ensures Holds(ServerRenew(s, now, key, token, ttl).0, now, key, token) <==> ttl >= MILLI
  {
  }
}

/** Hold: acquire, keep renewing, and cancel the guarded work on loss; with every interleaving of clients, server and
    clock. */
module LockRuns {
  import opened Arithmetic
  import opened LockBackends

  /** A request on its way: sent at a time, executed by the server (and whether it succeeded), or not made. */
  datatype Rpc = NoRpc | Sent(at: int) | Executed(at: int, ok: bool)

  /** One call of Hold. `expiry` is the end of the last lease the server granted this token; `knownFrom` when the
      last request whose success was reported was sent, `waited` how long the ticker was held up by its answer (the
      acquire's; a renewal's does not hold it up), and `dueAfter` the first tick due after it; the watchdog's next
      tick is due at `nextTick`. */
  datatype Hold = Hold(
    key: string, token: string,
    acquire: Rpc, held: bool, knownFrom: int, waited: int, dueAfter: int, expiry: int,
    watching: bool, nextTick: int, renew: Rpc, cancelled: bool, released: bool, release: Rpc)

  /** A call of Hold that has sent its acquire. */
  function NewHold(key: string, token: string, now: int): Hold {
    Hold(key, token, Sent(now), false, now, 0, now, now, false, now, NoRpc, false, false, NoRpc)
  }

  datatype State = State(now: int, store: Store, holds: seq<Hold>)

  datatype Config = Config(ttl: int, renewInterval: int)

  /** What NewFromConfig accepts. */
  predicate ConfigOk(c: Config) {
    c.ttl > 0 && c.renewInterval > 0 && c.renewInterval * 3 <= c.ttl
  }

  predicate Init(s: State) {
    s.store == map[] && s.holds == []
  }

  // ---------- steps ----------

  ghost predicate Tick(s: State, s': State) {
    s'.now >= s.now && s' == s.(now := s'.now)
  }

  /** A caller enters Hold; its token is new. */
  ghost predicate Enter(s: State, s': State, key: string, token: string) {
    && (forall i | 0 <= i < |s.holds| :: s.holds[i].token != token)
    && s' == s.(holds := s.holds + [NewHold(key, token, s.now)])
  }

  function With(s: State, i: nat, h: Hold): State
    requires i < |s.holds|
  {
    s.(holds := s.holds[i := h])
  }

  /** The server runs SET NX, perhaps long after the caller gave up. */
  ghost predicate ExecAcquire(c: Config, s: State, s': State, i: nat) {
    && i < |s.holds| && s.holds[i].acquire.Sent?
    && var h := s.holds[i];
    && var (store, ok) := ServerAcquire(s.store, s.now, h.key, h.token, c.ttl);
    && s' == With(s, i, h.(acquire := Executed(h.acquire.at, ok),
                           expiry := if ok then s.now + AcquireLease(c.ttl) else h.expiry)).(store := store)
  }

  /** Hold learns that it has the key and starts the watchdog and its ticker. */
  ghost predicate Granted(c: Config, s: State, s': State, i: nat) {
    && i < |s.holds| && s.holds[i].acquire.Executed? && s.holds[i].acquire.ok && !s.holds[i].held
    && var h := s.holds[i];
    && var tick := s.now + c.renewInterval;
    && s' == With(s, i, h.(held := true, watching := true, knownFrom := h.acquire.at, waited := s.now - h.acquire.at,
                           dueAfter := tick, nextTick := tick))
  }

  /** A tick is due, and the watchdog takes it and sends a renewal. Ticks are an interval apart, and those missed
      while it was busy are dropped, so the next one is due within an interval from now. */
  ghost predicate SendRenew(c: Config, s: State, s': State, i: nat, due: int) {
    && i < |s.holds| && s.holds[i].watching && s.holds[i].renew.NoRpc?
    && s.holds[i].nextTick <= s.now < due <= s.now + c.renewInterval
    && s' == With(s, i, s.holds[i].(renew := Sent(s.now), nextTick := due))
  }

  ghost predicate ExecRenew(c: Config, s: State, s': State, i: nat) {
    && i < |s.holds| && s.holds[i].renew.Sent?
    && var h := s.holds[i];
    && var (store, ok) := ServerRenew(s.store, s.now, h.key, h.token, c.ttl);
    && s' == With(s, i, h.(renew := Executed(h.renew.at, ok),
                           expiry := if ok then s.now + RenewLease(c.ttl) else h.expiry)).(store := store)
  }

  /** The answer reaches the watchdog: still held, or the work is cancelled and the watchdog ends. */
  ghost predicate RenewAnswered(s: State, s': State, i: nat) {
    && i < |s.holds| && s.holds[i].watching && s.holds[i].renew.Executed?
    && var h := s.holds[i];
    && s' == With(s, i, if h.renew.ok then h.(renew := NoRpc, knownFrom := h.renew.at, waited := 0,
                                              dueAfter := h.nextTick)
                        else h.(cancelled := true, watching := false))
  }

  /** The renewal fails on the way, executed or not: the work is cancelled. */
  ghost predicate RenewFailed(s: State, s': State, i: nat) {
    && i < |s.holds| && s.holds[i].watching && !s.holds[i].renew.NoRpc?
    && s' == With(s, i, s.holds[i].(cancelled := true, watching := false))
  }

  /** The watchdog sees the stop or the cancellation. */
  ghost predicate WatchdogEnds(s: State, s': State, i: nat) {
    && i < |s.holds| && s.holds[i].watching && (s.holds[i].released || s.holds[i].cancelled)
    && s' == With(s, i, s.holds[i].(watching := false))
  }

  /** The caller's own context ends. */
  ghost predicate ParentCancelled(s: State, s': State, i: nat) {
    && i < |s.holds|
    && s' == With(s, i, s.holds[i].(cancelled := true))
  }

  /** The first call of release stops the watchdog and cancels the held context. */
  ghost predicate BeginRelease(s: State, s': State, i: nat) {
    && i < |s.holds| && s.holds[i].held && !s.holds[i].released
    && s' == With(s, i, s.holds[i].(released := true, cancelled := true))
  }

  /** Only then is the key given back. */
  ghost predicate SendRelease(s: State, s': State, i: nat) {
    && i < |s.holds| && s.holds[i].released && s.holds[i].release.NoRpc?
    && s' == With(s, i, s.holds[i].(release := Sent(s.now)))
  }

  ghost predicate ExecRelease(s: State, s': State, i: nat) {
    && i < |s.holds| && s.holds[i].release.Sent?
    && var h := s.holds[i];
    && s' == With(s, i, h.(release := Executed(h.release.at, true)))
             .(store := ServerRelease(s.store, s.now, h.key, h.token))
  }

  /** The steps that leave the store alone. */
  ghost predicate ClientStep(c: Config, s: State, s': State, i: nat) {
    || Granted(c, s, s', i) || (exists due :: SendRenew(c, s, s', i, due)) || RenewAnswered(s, s', i)
    || RenewFailed(s, s', i)
    || WatchdogEnds(s, s', i) || ParentCancelled(s, s', i) || BeginRelease(s, s', i) || SendRelease(s, s', i)
  }

  ghost predicate Next(c: Config, s: State, s': State) {
    || Tick(s, s')
    || (exists key, token :: Enter(s, s', key, token))
    || (exists i :: ClientStep(c, s, s', i))
    || (exists i :: ExecAcquire(c, s, s', i))
    || (exists i :: ExecRenew(c, s, s', i))
    || (exists i :: ExecRelease(s, s', i))
  }

  ghost predicate IsRun(c: Config, run: seq<State>) {
    && run != [] && Init(run[0])
    && forall i | 0 <= i < |run| - 1 :: Next(c, run[i], run[i + 1])
  }

  // ---------- the invariant ----------

  /** The server granted this token the key. */
  predicate WasGranted(h: Hold) {
    h.acquire.Executed? && h.acquire.ok
  }

  /** Until its last granted lease ends, and unless it was given back, the store holds the token to that very end. */
  ghost predicate LeaseKept(now: int, store: Store, h: Hold) {
    WasGranted(h) && !h.release.Executed? && now < h.expiry ==>
      h.key in store && store[h.key] == Lease(h.token, h.expiry)
  }

  /** What a call knows is never newer than what the server did, and it cancels before it gives back. */
  ghost predicate Honest(c: Config, now: int, h: Hold) {
    && (!h.acquire.NoRpc? ==> h.acquire.at <= now)
    && (!h.renew.NoRpc? ==> h.renew.at <= now && h.held)
    && h.knownFrom <= now
    && (WasGranted(h) ==> h.acquire.at + RenewLease(c.ttl) <= h.expiry)
    && (h.renew.Executed? && h.renew.ok ==> h.renew.at + RenewLease(c.ttl) <= h.expiry)
    && (h.held ==> WasGranted(h) && h.knownFrom + RenewLease(c.ttl) <= h.expiry)
    && (h.watching ==> h.held && h.nextTick <= now + c.renewInterval)
    && (h.held && !h.cancelled ==> h.watching)
    && (!h.renew.NoRpc? ==> h.nextTick <= h.renew.at + c.renewInterval)
    && (h.held ==> h.waited >= 0 && h.dueAfter <= h.knownFrom + h.waited + c.renewInterval)
    && (h.released ==> h.held && h.cancelled)
    && (!h.release.NoRpc? ==> h.released)
  }

  /** A stored key belongs to the call that drew its token. */
  ghost predicate Explained(s: State, k: string)
    requires k in s.store
  {
    exists i :: 0 <= i < |s.holds| && Explains(s.holds[i], k, s.store[k])
  }

  ghost predicate Explains(h: Hold, k: string, l: Lease) {
    h.key == k && l == Lease(h.token, h.expiry) && WasGranted(h)
  }

  ghost predicate DistinctTokens(holds: seq<Hold>) {
    forall i, j | 0 <= i < j < |holds| :: holds[i].token != holds[j].token
  }

  ghost predicate Inv(c: Config, s: State) {
    && DistinctTokens(s.holds)
    && (forall i | 0 <= i < |s.holds| :: LeaseKept(s.now, s.store, s.holds[i]) && Honest(c, s.now, s.holds[i]))
    && (forall k | k in s.store :: Explained(s, k))
  }

  // ---------- each step keeps it ----------

  lemma ExplainedStill(s: State, s': State, i: nat, k: string)
    requires i < |s.holds| == |s'.holds| && k in s.store && k in s'.store && s'.store[k] == s.store[k]
             && Explained(s, k)
    requires forall j | 0 <= j < |s.holds| && j != i :: s'.holds[j] == s.holds[j]
    requires Explains(s.holds[i], k, s.store[k]) ==> Explains(s'.holds[i], k, s'.store[k])
    ensures Explained(s', k)
  {
    var j :| 0 <= j < |s.holds| && Explains(s.holds[j], k, s.store[k]);
    assert Explains(s'.holds[j], k, s'.store[k]);
  }

  lemma TickKeeps(c: Config, s: State, s': State)
    requires Inv(c, s) && Tick(s, s')
    ensures Inv(c, s')
  {
    forall k | k in s'.store ensures Explained(s', k) {
      var i :| 0 <= i < |s.holds| && Explains(s.holds[i], k, s.store[k]);
      assert Explains(s'.holds[i], k, s'.store[k]);
    }
  }

  lemma EnterKeeps(c: Config, s: State, s': State, key: string, token: string)
    requires Inv(c, s) && Enter(s, s', key, token)
    ensures Inv(c, s')
  {
    forall k | k in s'.store ensures Explained(s', k) {
      var i :| 0 <= i < |s.holds| && Explains(s.holds[i], k, s.store[k]);
      assert Explains(s'.holds[i], k, s'.store[k]);
    }
  }

  /** A client step changes one call and leaves what the server knows of it. */
  lemma ClientShape(c: Config, s: State, s': State, i: nat)
    requires ClientStep(c, s, s', i)
    ensures i < |s.holds| == |s'.holds| && s' == With(s, i, s'.holds[i])
    ensures var h, h' := s.holds[i], s'.holds[i];
            && h'.key == h.key && h'.token == h.token && h'.expiry == h.expiry && h'.acquire == h.acquire
            && h'.release.Executed? == h.release.Executed?
  {
  }

  lemma ClientHonest(c: Config, s: State, s': State, i: nat)
    requires ClientStep(c, s, s', i) && i < |s.holds| == |s'.holds| && Honest(c, s.now, s.holds[i])
    ensures Honest(c, s.now, s'.holds[i])
  {
  }

  lemma ClientStepKeeps(c: Config, s: State, s': State, i: nat)
    requires Inv(c, s) && ClientStep(c, s, s', i)
    ensures Inv(c, s')
  {
    ClientShape(c, s, s', i);
    ClientHonest(c, s, s', i);
    hide ClientStep;
    hide Honest;
    assert LeaseKept(s.now, s.store, s.holds[i]);
    forall k | k in s'.store ensures Explained(s', k) {
      ExplainedStill(s, s', i, k);
    }
  }

  lemma ExecAcquireKeeps(c: Config, s: State, s': State, i: nat)
    requires Inv(c, s) && ExecAcquire(c, s, s', i) && c.ttl > 0
    ensures Inv(c, s')
  {
    var h, h' := s.holds[i], s'.holds[i];
    assert Honest(c, s.now, h);
    assert RenewLease(c.ttl) <= AcquireLease(c.ttl);
    forall j | 0 <= j < |s'.holds| ensures LeaseKept(s'.now, s'.store, s'.holds[j]) && Honest(c, s'.now, s'.holds[j]) {
      assert LeaseKept(s.now, s.store, s.holds[j]) && Honest(c, s.now, s.holds[j]);
    }
    forall k | k in s'.store ensures Explained(s', k) {
      if k == h.key && h'.acquire.ok {
        assert Explains(h', k, s'.store[k]);
      } else {
        ExplainedStill(s, s', i, k);
      }
    }
  }

  /** A store entry under a call's token is that call's own lease. */
  lemma OwnEntry(c: Config, s: State, i: nat, k: string)
    requires Inv(c, s) && i < |s.holds| && k in s.store && s.store[k].token == s.holds[i].token
    ensures Explains(s.holds[i], k, s.store[k])
  {
    assert Explained(s, k);
    var j :| 0 <= j < |s.holds| && Explains(s.holds[j], k, s.store[k]);
  }

  /** No other call's kept lease is on a key this token holds. */
  lemma OthersElsewhere(c: Config, s: State, i: nat, j: nat)
    requires Inv(c, s) && i < |s.holds| && j < |s.holds| && i != j
    requires Holds(s.store, s.now, s.holds[i].key, s.holds[i].token)
    ensures WasGranted(s.holds[j]) && !s.holds[j].release.Executed? && s.now < s.holds[j].expiry ==>
              s.holds[j].key != s.holds[i].key
  {
    assert LeaseKept(s.now, s.store, s.holds[j]);
  }

  lemma ExecRenewKeeps(c: Config, s: State, s': State, i: nat)
    requires Inv(c, s) && ExecRenew(c, s, s', i) && c.ttl > 0
    ensures Inv(c, s')
  {
    var h, h' := s.holds[i], s'.holds[i];
    assert Honest(c, s.now, h) && LeaseKept(s.now, s.store, h);
    assert RenewLease(c.ttl) >= 0;
    forall j | 0 <= j < |s'.holds| ensures LeaseKept(s'.now, s'.store, s'.holds[j]) && Honest(c, s'.now, s'.holds[j]) {
      assert LeaseKept(s.now, s.store, s.holds[j]) && Honest(c, s.now, s.holds[j]);
      if j != i && h'.renew.ok {
        OthersElsewhere(c, s, i, j);
      }
    }
    forall k | k in s'.store ensures Explained(s', k) {
      if k == h.key && h'.renew.ok {
        assert Explains(h', k, s'.store[k]);
      } else {
        if s.store[k].token == h.token {
          OwnEntry(c, s, i, k);
        }
        ExplainedStill(s, s', i, k);
      }
    }
  }

  lemma ExecReleaseKeeps(c: Config, s: State, s': State, i: nat)
    requires Inv(c, s) && ExecRelease(s, s', i)
    ensures Inv(c, s')
  {
    var h, h' := s.holds[i], s'.holds[i];
    assert Honest(c, s.now, h);
    forall j | 0 <= j < |s'.holds| ensures LeaseKept(s'.now, s'.store, s'.holds[j]) && Honest(c, s'.now, s'.holds[j]) {
      assert LeaseKept(s.now, s.store, s.holds[j]) && Honest(c, s.now, s.holds[j]);
      if j != i && Holds(s.store, s.now, h.key, h.token) {
        OthersElsewhere(c, s, i, j);
      }
    }
    forall k | k in s'.store ensures Explained(s', k) {
      ExplainedStill(s, s', i, k);
    }
  }

  lemma NextKeeps(c: Config, s: State, s': State)
    requires Inv(c, s) && Next(c, s, s') && c.ttl > 0
    ensures Inv(c, s')
  {
    hide Inv;
    hide ExecAcquire;
    hide ExecRenew;
    hide ExecRelease;
    hide ClientStep;
    hide Enter;
    if Tick(s, s') {
      TickKeeps(c, s, s');
    } else if key, token :| Enter(s, s', key, token) {
      EnterKeeps(c, s, s', key, token);
    } else if i :| ClientStep(c, s, s', i) {
      ClientStepKeeps(c, s, s', i);
    } else if i :| ExecAcquire(c, s, s', i) {
      ExecAcquireKeeps(c, s, s', i);
    } else if i :| ExecRenew(c, s, s', i) {
      ExecRenewKeeps(c, s, s', i);
    } else {
      var i :| ExecRelease(s, s', i);
      ExecReleaseKeeps(c, s, s', i);
    }
  }

  lemma {:induction false} RunKeeps(c: Config, run: seq<State>, n: nat)
    requires IsRun(c, run) && n < |run| && c.ttl > 0
    ensures Inv(c, run[n])
  {
    hide Next;
    if n > 0 {
      RunKeeps(c, run, n - 1);
      assert Next(c, run[n - 1], run[n - 1 + 1]);
      NextKeeps(c, run[n - 1], run[n]);
    }
  }

  // ---------- lease safety ----------

  /** A holder inside its lease as it can tell: less than `lease` since it sent its last successful acquire or renew,
      and not released. */
  predicate Within(s: State, i: nat, lease: int) {
    i < |s.holds| && s.holds[i].held && !s.holds[i].released && s.now < s.holds[i].knownFrom + lease
  }

  /** In every run, a holder inside the whole milliseconds of its lease still has the key. */
  lemma HolderHasTheKey(c: Config, run: seq<State>, n: nat, i: nat)
    requires IsRun(c, run) && n < |run| && c.ttl > 0 && Within(run[n], i, RenewLease(c.ttl))
    ensures Holds(run[n].store, run[n].now, run[n].holds[i].key, run[n].holds[i].token)
  {
    RunKeeps(c, run, n);
    var s := run[n];
    assert LeaseKept(s.now, s.store, s.holds[i]) && Honest(c, s.now, s.holds[i]);
  }

  /** So no other acquire of the key succeeds, and two such holders are the same. */
  lemma LeaseExcludes(c: Config, run: seq<State>, n: nat, i: nat, j: nat, token: string)
    requires IsRun(c, run) && n < |run| && c.ttl > 0 && Within(run[n], i, RenewLease(c.ttl))
    ensures ServerAcquire(run[n].store, run[n].now, run[n].holds[i].key, token, c.ttl) == (run[n].store, false)
    ensures Within(run[n], j, RenewLease(c.ttl)) && run[n].holds[j].key == run[n].holds[i].key ==> i == j
  {
    RunKeeps(c, run, n);
    HolderHasTheKey(c, run, n, i);
    if Within(run[n], j, RenewLease(c.ttl)) && run[n].holds[j].key == run[n].holds[i].key {
      HolderHasTheKey(c, run, n, j);
      OwnEntry(c, run[n], i, run[n].holds[i].key);
    }
  }

  /** The configured TTL is the lease: whoever is within it has the key, in every run. */
  ghost predicate TtlIsSafe(c: Config) {
    forall run: seq<State>, n: nat, i: nat | IsRun(c, run) && n < |run| && Within(run[n], i, c.ttl) ::
      Holds(run[n].store, run[n].now, run[n].holds[i].key, run[n].holds[i].token)
  }

  /** The promise about the TTL is kept exactly when the TTL is whole milliseconds: the server is only ever told whole
      ones, so any fraction is a time in which the holder believes in a lease the server has ended. */
  lemma TtlSafeIffWholeMillis(c: Config)
    requires ConfigOk(c)
    ensures TtlIsSafe(c) <==> c.ttl % MILLI == 0
  {
    hide IsRun;
    assert c.ttl == c.ttl / MILLI * MILLI + c.ttl % MILLI;
    if c.ttl % MILLI == 0 {
      forall run: seq<State>, n: nat, i: nat | IsRun(c, run) && n < |run| && Within(run[n], i, c.ttl)
        ensures Holds(run[n].store, run[n].now, run[n].holds[i].key, run[n].holds[i].token)
      {
        HolderHasTheKey(c, run, n, i);
      }
    } else {
      var run := LapsedRun(c);
      var n: nat, i: nat := 8, 0;
      assert Within(run[n], i, c.ttl);
      assert !Holds(run[n].store, run[n].now, run[n].holds[i].key, run[n].holds[i].token);
    }
  }

  /** The first lease outlasts the first tick. */
  lemma FirstTickInLease(c: Config)
    requires ConfigOk(c)
    ensures c.renewInterval < AcquireLease(c.ttl)
  {
    UnitStep(c.ttl, MILLI);
    if c.ttl >= 2 * MILLI {
      assert AcquireLease(c.ttl) > c.ttl - MILLI;
    } else if c.ttl >= MILLI {
      OneUnit(1, c.ttl, MILLI);
    }
  }

  /** One holder acquires at time 0, renews at its first tick, and the clock moves to the end of the lease the server
      granted: from then on the key is gone. */
  lemma LapsedRun(c: Config) returns (run: seq<State>)
    requires ConfigOk(c)
    ensures IsRun(c, run) && |run| == 9
    ensures |run[8].holds| == 1 && run[8].holds[0].held && !run[8].holds[0].released
    ensures var h := run[8].holds[0];
            && h.watching && !h.cancelled && h.knownFrom == c.renewInterval && h.waited == 0
            && h.dueAfter == 2 * c.renewInterval
    ensures run[8].now == run[8].holds[0].knownFrom + RenewLease(c.ttl)
    ensures !Holds(run[8].store, run[8].now, run[8].holds[0].key, run[8].holds[0].token)
  {
    FirstTickInLease(c);
    UnitStep(c.ttl, MILLI);
    var k, t, tick, lease := "k", "t", c.renewInterval, RenewLease(c.ttl);
    var h1 := NewHold(k, t, 0);
    var h2 := h1.(acquire := Executed(0, true), expiry := AcquireLease(c.ttl));
    var h3 := h2.(held := true, watching := true, knownFrom := 0, waited := 0, dueAfter := tick, nextTick := tick);
    var h4 := h3.(renew := Sent(tick), nextTick := 2 * tick);
    var h5 := h4.(renew := Executed(tick, true), expiry := tick + lease);
    var h6 := h5.(renew := NoRpc, knownFrom := tick, waited := 0, dueAfter := 2 * tick);
    var st: Store := map[k := Lease(t, AcquireLease(c.ttl))];
    var st' := ServerRenew(st, tick, k, t, c.ttl).0;
    var s0, s1 := State(0, map[], []), State(0, map[], [h1]);
    var s2, s3, s4 := State(0, st, [h2]), State(0, st, [h3]), State(tick, st, [h3]);
    var s5, s6, s7 := State(tick, st, [h4]), State(tick, st', [h5]), State(tick, st', [h6]);
    var s8 := State(tick + lease, st', [h6]);
    assert Enter(s0, s1, k, t);
    assert ExecAcquire(c, s1, s2, 0);
    assert Granted(c, s2, s3, 0) && ClientStep(c, s2, s3, 0);
    assert Tick(s3, s4);
    assert SendRenew(c, s4, s5, 0, 2 * tick) && ClientStep(c, s4, s5, 0);
    assert ExecRenew(c, s5, s6, 0);
    assert RenewAnswered(s6, s7, 0) && ClientStep(c, s6, s7, 0);
    assert Tick(s7, s8);
    run := [s0, s1, s2, s3, s4, s5, s6, s7, s8];
    forall n | 0 <= n < |run| - 1 ensures Next(c, run[n], run[n + 1]) {
    }
  }

  // ---------- release ----------

  /** The held context is cancelled before the key can become free. Between any two moments, short of the lease running
      out, a key a holder had is gone only if that holder's context is cancelled and it asked for its release. */
  lemma CancelledBeforeFree(c: Config, run: seq<State>, n: nat, i: nat)
    requires IsRun(c, run) && n + 1 < |run| && c.ttl > 0 && i < |run[n].holds|
    requires Holds(run[n].store, run[n].now, run[n].holds[i].key, run[n].holds[i].token)
    requires !Holds(run[n + 1].store, run[n + 1].now, run[n].holds[i].key, run[n].holds[i].token)
    ensures i < |run[n + 1].holds|
    ensures run[n + 1].now >= run[n + 1].holds[i].expiry || (run[n].holds[i].cancelled && run[n].holds[i].released)
  {
    RunKeeps(c, run, n);
    StepFrees(c, run[n], run[n + 1], i);
  }

  lemma StepFrees(c: Config, s: State, s': State, i: nat)
    requires Inv(c, s) && Next(c, s, s') && c.ttl > 0 && i < |s.holds|
    requires Holds(s.store, s.now, s.holds[i].key, s.holds[i].token)
    requires !Holds(s'.store, s'.now, s.holds[i].key, s.holds[i].token)
    ensures i < |s'.holds|
    ensures s'.now >= s'.holds[i].expiry || (s.holds[i].cancelled && s.holds[i].released)
  {
    OwnEntry(c, s, i, s.holds[i].key);
    assert Honest(c, s.now, s.holds[i]) && DistinctTokens(s.holds);
    hide Inv;
    hide ExecRenew;
    hide ExecAcquire;
    hide ClientStep;
    hide ExecRelease;
    if j :| ExecRelease(s, s', j) {
      ReleaseFrees(c, s, s', i, j);
    } else if j :| ExecRenew(c, s, s', j) {
      RenewalFrees(c, s, s', i, j);
    } else if j :| ExecAcquire(c, s, s', j) {
      AcquireKeepsOthers(c, s, s', i, j);
    } else if j :| ClientStep(c, s, s', j) {
      ClientKeepsStore(c, s, s', j);
    }
  }

  lemma ClientKeepsStore(c: Config, s: State, s': State, j: nat)
    requires ClientStep(c, s, s', j)
    ensures s'.store == s.store && s'.now == s.now
  {
  }

  lemma AcquireKeepsOthers(c: Config, s: State, s': State, i: nat, j: nat)
    requires ExecAcquire(c, s, s', j) && i < |s.holds| && Holds(s.store, s.now, s.holds[i].key, s.holds[i].token)
    ensures Holds(s'.store, s'.now, s.holds[i].key, s.holds[i].token)
  {
  }

  lemma OtherTokens(s: State, i: nat, j: nat)
    requires DistinctTokens(s.holds) && i < |s.holds| && j < |s.holds| && i != j
    ensures s.holds[i].token != s.holds[j].token
  {
  }

  /** A release frees a key only for its own holder, who was cancelled before. */
  lemma ReleaseFrees(c: Config, s: State, s': State, i: nat, j: nat)
    requires DistinctTokens(s.holds) && ExecRelease(s, s', j) && i < |s.holds| && Honest(c, s.now, s.holds[i])
    requires Holds(s.store, s.now, s.holds[i].key, s.holds[i].token)
    ensures i < |s'.holds|
    ensures Holds(s'.store, s'.now, s.holds[i].key, s.holds[i].token) || (s.holds[i].cancelled && s.holds[i].released)
  {
    if i != j {
      OtherTokens(s, i, j);
    }
  }

  /** A renewal frees a key only by granting its own holder no time at all. */
  lemma RenewalFrees(c: Config, s: State, s': State, i: nat, j: nat)
    requires DistinctTokens(s.holds) && ExecRenew(c, s, s', j) && i < |s.holds| && c.ttl > 0
    requires Holds(s.store, s.now, s.holds[i].key, s.holds[i].token)
    ensures i < |s'.holds|
    ensures Holds(s'.store, s'.now, s.holds[i].key, s.holds[i].token) || s'.now >= s'.holds[i].expiry
  {
    if i != j {
      OtherTokens(s, i, j);
    }
  }

  /** Once released, a call never sends a second release, and stays cancelled. */
  lemma ReleaseIsOnce(c: Config, s: State, s': State, i: nat)
    requires Next(c, s, s') && i < |s.holds| && s.holds[i].released && s.holds[i].cancelled
    ensures i < |s'.holds| && s'.holds[i].released && s'.holds[i].cancelled
    ensures !s.holds[i].release.NoRpc? ==>
              !s'.holds[i].release.NoRpc? && s'.holds[i].release.at == s.holds[i].release.at
  {
    hide ServerAcquire;
    hide ServerRenew;
    hide ServerRelease;
    if j :| ClientStep(c, s, s', j) {
      ClientKeepsRelease(c, s, s', i, j);
    } else if j :| ExecAcquire(c, s, s', j) {
    } else if j :| ExecRenew(c, s, s', j) {
    } else if j :| ExecRelease(s, s', j) {
    }
  }

  lemma ClientKeepsRelease(c: Config, s: State, s': State, i: nat, j: nat)
    requires ClientStep(c, s, s', j) && i < |s.holds| && s.holds[i].released && s.holds[i].cancelled
    ensures i < |s'.holds| && s'.holds[i].released && s'.holds[i].cancelled
    ensures !s.holds[i].release.NoRpc? ==> s'.holds[i].release == s.holds[i].release
  {
  }
}

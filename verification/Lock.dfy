/** The shard lock: a key with an owner and a time to live, and the worker processes that
    acquire, renew and release it (internal/worker/worker.go). Time is in milliseconds. */
module Lock {
  import opened Model

  const LOCK_TTL := 5000

  datatype Key = Free | Taken(owner: string, expires: int)

  /** GET: a key is gone once its deadline has passed. */
  function Get(k: Key, now: int): Option<string> {
    if k.Taken? && now <= k.expires then Some(k.owner) else None
  }

  function SetNX(k: Key, id: string, now: int): Key {
    if Get(k, now).None? then Taken(id, now + LOCK_TTL) else k
  }

  function Renew(k: Key, id: string, now: int): Key {
    if Get(k, now) == Some(id) then Taken(id, now + LOCK_TTL) else k
  }

  function Release(k: Key, id: string, now: int): Key {
    if Get(k, now) == Some(id) then Free else k
  }

  /** The key in Redis, changed in place by SET NX EX and by the two scripts. */
  class LockKey {
    var key: Key

    constructor ()
      ensures key == Free
    {
      key := Free;
    }

    /** Whatever other processes call. */
    method Become(k: Key)
      modifies this
      ensures key == k
    {
      key := k;
    }

    method TryAcquire(id: string, now: int) returns (ok: bool)
      modifies this
      ensures key == SetNX(old(key), id, now)
      ensures ok <==> Get(old(key), now).None?
      ensures ok ==> Get(key, now) == Some(id)
    {
      ok := !(key.Taken? && now <= key.expires);
      if ok {
        key := Taken(id, now + LOCK_TTL);
      }
    }

    method RenewScript(id: string, now: int) returns (res: int)
      modifies this
      ensures key == Renew(old(key), id, now)
      ensures res == if Get(old(key), now) == Some(id) then 1 else 0
    {
      var owner := Get(key, now);
      if owner == Some(id) {
        key := Taken(id, now + LOCK_TTL);
        return 1;
      }
      return 0;
    }

    method ReleaseScript(id: string, now: int) returns (res: int)
      modifies this
      ensures key == Release(old(key), id, now)
      ensures res == if Get(old(key), now) == Some(id) then 1 else 0
    {
      var owner := Get(key, now);
      if owner == Some(id) {
        key := Free;
        return 1;
      }
      return 0;
    }
  }

  // ---- the processes ----------------------------------------------------------------

  type Process = nat

  /** For each running process the instant of its last successful acquire or renew. */
  datatype Cluster = Cluster(now: int, key: Key, lastOk: map<Process, int>)

  datatype Move =
    | Tick(ms: nat)
    | Acquire(p: Process)
    | Extend(p: Process)      // a tick of the renew loop
    | Stop(p: Process)        // the loops have ended, for whatever reason
    | Unlock(p: Process)      // the deferred release, after the loops have ended

  predicate CanMove(c: Cluster, m: Move) {
    match m
    case Tick(_) => true
    case Acquire(p) => p !in c.lastOk
    case Extend(p) => p in c.lastOk
    case Stop(p) => p in c.lastOk
    case Unlock(p) => p !in c.lastOk
  }

  function MoveOn(ids: Process -> string, c: Cluster, m: Move): Cluster
    requires CanMove(c, m)
  {
    match m
    case Tick(ms) => c.(now := c.now + ms)
    case Acquire(p) =>
      if Get(c.key, c.now).None?
      then c.(key := SetNX(c.key, ids(p), c.now), lastOk := c.lastOk[p := c.now]) else c
    case Extend(p) =>
      if Get(c.key, c.now) == Some(ids(p))
      then c.(key := Renew(c.key, ids(p), c.now), lastOk := c.lastOk[p := c.now]) else c
    case Stop(p) => c.(lastOk := c.lastOk - {p})
    case Unlock(p) => c.(key := Release(c.key, ids(p), c.now))
  }

  ghost predicate IsRun(ids: Process -> string, cs: seq<Cluster>, ms: seq<Move>) {
    && |cs| == |ms| + 1
    && cs[0].key == Free && cs[0].lastOk == map[]
    && forall i :: 0 <= i < |ms| ==> CanMove(cs[i], ms[i]) && cs[i + 1] == MoveOn(ids, cs[i], ms[i])
  }

  ghost predicate Reachable(ids: Process -> string, c: Cluster) {
    exists cs: seq<Cluster>, ms: seq<Move> :: IsRun(ids, cs, ms) && cs[|ms|] == c
  }

  /** Running, and less than five seconds after its last success. */
  predicate Active(c: Cluster, p: Process) {
    p in c.lastOk && c.now < c.lastOk[p] + LOCK_TTL
  }

  ghost predicate Exclusive(c: Cluster) {
    forall p, q :: Active(c, p) && Active(c, q) ==> p == q
  }

  ghost predicate Injective(ids: Process -> string) {
    forall p, q :: ids(p) == ids(q) ==> p == q
  }

  /** An active process owns the key, and the key outlives its activity. */
  ghost predicate Covered(ids: Process -> string, c: Cluster) {
    forall p :: Active(c, p) ==>
      c.key.Taken? && c.key.owner == ids(p) && c.lastOk[p] + LOCK_TTL <= c.key.expires
  }

  lemma CoveredMove(ids: Process -> string, c: Cluster, m: Move)
    requires Injective(ids) && Covered(ids, c) && CanMove(c, m)
    ensures Covered(ids, MoveOn(ids, c, m))
  {
    var d := MoveOn(ids, c, m);
    forall p | Active(d, p)
      ensures d.key.Taken? && d.key.owner == ids(p) && d.lastOk[p] + LOCK_TTL <= d.key.expires
    {
      if p in c.lastOk && d.lastOk[p] == c.lastOk[p] {
        assert Active(c, p);
      }
    }
  }

  lemma {:induction false} CoveredRun(ids: Process -> string, cs: seq<Cluster>, ms: seq<Move>, i: nat)
    requires Injective(ids) && IsRun(ids, cs, ms) && i <= |ms|
    ensures Covered(ids, cs[i])
  {
    if i > 0 {
      CoveredRun(ids, cs, ms, i - 1);
      CoveredMove(ids, cs[i - 1], ms[i - 1]);
    }
  }

  /** With equal identities two processes get to be active together: one is suspended until
      its lock has expired, the other acquires it, and the first one's renewal then succeeds. */
  lemma SharedIdentity(ids: Process -> string, p: Process, q: Process)
    requires p != q && ids(p) == ids(q)
    ensures exists c :: Reachable(ids, c) && Active(c, p) && Active(c, q)
  {
    var c0 := Cluster(0, Free, map[]);
    var c1 := MoveOn(ids, c0, Acquire(p));
    var c2 := MoveOn(ids, c1, Tick(5001));
    var c3 := MoveOn(ids, c2, Acquire(q));
    var c4 := MoveOn(ids, c3, Extend(p));
    assert IsRun(ids, [c0, c1, c2, c3, c4], [Acquire(p), Tick(5001), Acquire(q), Extend(p)]);
    assert [c0, c1, c2, c3, c4][|[Acquire(p), Tick(5001), Acquire(q), Extend(p)]|] == c4;
    assert Reachable(ids, c4) && Active(c4, p) && Active(c4, q);
  }

  /** At most one worker is active in every reachable state if and only if no two
      processes have the same worker identity. */
  lemma MutualExclusionIff(ids: Process -> string)
    ensures (forall c :: Reachable(ids, c) ==> Exclusive(c)) <==> Injective(ids)
  {
    if Injective(ids) {
      forall c | Reachable(ids, c)
        ensures Exclusive(c)
      {
        var cs: seq<Cluster>, ms: seq<Move> :| IsRun(ids, cs, ms) && cs[|ms|] == c;
        CoveredRun(ids, cs, ms, |ms|);
      }
    } else {
      var p, q :| ids(p) == ids(q) && p != q;
      SharedIdentity(ids, p, q);
    }
  }

  /** The bound of five seconds is needed: a worker that goes on later can overlap with
      the next owner, whatever the identities. */
  lemma LateWorkersOverlap(ids: Process -> string, p: Process, q: Process)
    requires p != q
    ensures exists c :: Reachable(ids, c) && p in c.lastOk && Active(c, q)
  {
    var c0 := Cluster(0, Free, map[]);
    var c1 := MoveOn(ids, c0, Acquire(p));
    var c2 := MoveOn(ids, c1, Tick(5001));
    var c3 := MoveOn(ids, c2, Acquire(q));
    assert IsRun(ids, [c0, c1, c2, c3], [Acquire(p), Tick(5001), Acquire(q)]);
    assert [c0, c1, c2, c3][|[Acquire(p), Tick(5001), Acquire(q)]|] == c3;
    assert Reachable(ids, c3) && p in c3.lastOk && Active(c3, q);
  }

  /** A lock taken now is held for five seconds, the last millisecond included, and is free
      for everyone after that. */
  lemma LockLasts(id: string, other: string, now: int, later: int)
    requires now <= later
    ensures Get(SetNX(Free, id, now), later) == if later <= now + 5000 then Some(id) else None
    ensures later > now + 5000 ==> Get(SetNX(SetNX(Free, id, now), other, later), later) == Some(other)
    ensures Get(Renew(SetNX(Free, id, now), id, now + 5000), now + 10000) == Some(id)
  {
  }

  /** Unconditionally, a renew or a release by one identity leaves a lock that another one
      holds exactly as it is, deadline included; and a refused acquire changes nothing. */
  lemma ForeignLockUntouched(k: Key, holder: string, id: string, now: int)
    requires Get(k, now) == Some(holder)
    ensures SetNX(k, id, now) == k
    ensures (Renew(k, id, now) != k || Release(k, id, now) != k) ==> id == holder
    ensures Get(Release(k, holder, now), now) == None
    ensures Renew(k, holder, now) == Taken(holder, now + LOCK_TTL)
  {
  }

  // ---- the loops of the source -----------------------------------------------------------

  lemma ReachMove(ids: Process -> string, c: Cluster, m: Move)
    requires Reachable(ids, c) && CanMove(c, m)
    ensures Reachable(ids, MoveOn(ids, c, m))
  {
    hide MoveOn, CanMove;
    var d := MoveOn(ids, c, m);
    var cs: seq<Cluster>, ms: seq<Move> :| IsRun(ids, cs, ms) && cs[|ms|] == c;
    var longer, more := cs + [d], ms + [m];
    assert IsRun(ids, longer, more) && longer[|more|] == d;
  }

  lemma {:induction false} PastOnly(ids: Process -> string, cs: seq<Cluster>, ms: seq<Move>, p: Process, i: nat)
    requires IsRun(ids, cs, ms) && i <= |ms|
    ensures p in cs[i].lastOk ==> cs[i].lastOk[p] <= cs[i].now
  {
    if i > 0 {
      PastOnly(ids, cs, ms, p, i - 1);
    }
  }

  lemma ReachableIsPast(ids: Process -> string, c: Cluster, p: Process)
    requires Reachable(ids, c) && p in c.lastOk
    ensures c.lastOk[p] <= c.now
  {
    var cs: seq<Cluster>, ms: seq<Move> :| IsRun(ids, cs, ms) && cs[|ms|] == c;
    PastOnly(ids, cs, ms, p, |ms|);
  }

  lemma ReachableIsCovered(ids: Process -> string, c: Cluster)
    requires Reachable(ids, c) && Injective(ids)
    ensures Covered(ids, c)
  {
    var cs: seq<Cluster>, ms: seq<Move> :| IsRun(ids, cs, ms) && cs[|ms|] == c;
    CoveredRun(ids, cs, ms, |ms|);
  }

  /** The move is not one of process p; time may pass. */
  predicate Elsewhere(m: Move, p: Process) {
    match m
    case Tick(_) => true
    case Acquire(q) => q != p
    case Extend(q) => q != p
    case Stop(q) => q != p
    case Unlock(q) => q != p
  }

  lemma ElsewhereKeeps(ids: Process -> string, c: Cluster, m: Move, p: Process)
    requires CanMove(c, m) && Elsewhere(m, p)
    ensures var d := MoveOn(ids, c, m); d.now >= c.now && SameFor(c.lastOk, d.lastOk, p)
  {
  }

  lemma TickIs(ids: Process -> string, c: Cluster, ms: nat)
    ensures CanMove(c, Tick(ms)) && MoveOn(ids, c, Tick(ms)) == c.(now := c.now + ms)
  {
  }

  ghost predicate SameFor(a: map<Process, int>, b: map<Process, int>, p: Process) {
    (p in a <==> p in b) && (p in a && p in b ==> a[p] == b[p])
  }

  datatype LoopEnd = LockLost | CallFailed | ContextDone

  /** The worker processes of one shard and their lock. Every call of a process is a move
      of the cluster, and between two of its calls the others move and time passes. */
  class Locker {
    const ids: Process -> string
    const lock: LockKey
    var now: int
    var lastOk: map<Process, int>

    function Sees(): Cluster
      reads this, lock
    {
      Cluster(now, lock.key, lastOk)
    }

    ghost predicate Valid()
      reads this, lock
    {
      Reachable(ids, Sees())
    }

    constructor (ids: Process -> string, lock: LockKey, now: int)
      requires lock.key == Free
      ensures Valid() && this.ids == ids && this.lock == lock && lastOk == map[]
    {
      this.ids, this.lock, this.now, this.lastOk := ids, lock, now, map[];
      new;
      ghost var none: seq<Move> := [];
      assert IsRun(ids, [Sees()], none) && [Sees()][|none|] == Sees();
    }

    /** Time passes, and the other processes move if there are any. */
    method Others(p: Process, alone: bool)
      requires Valid()
      modifies this`now, this`lastOk, lock
      ensures Valid() && now >= old(now) && SameFor(old(lastOk), lastOk, p)
      ensures alone ==> lock.key == old(lock.key) && lastOk == old(lastOk)
    {
      hide Reachable, MoveOn, CanMove;
      if alone {
        var ms: nat :| true;
        TickIs(ids, Sees(), ms);
        ReachMove(ids, Sees(), Tick(ms));
        now := now + ms;
        return;
      }
      var rounds: nat :| true;
      while rounds > 0
        invariant Valid() && now >= old(now) && SameFor(old(lastOk), lastOk, p)
      {
        var m: Move := *;
        var c := Sees();
        if Elsewhere(m, p) && CanMove(c, m) {
          var d := MoveOn(ids, c, m);
          ReachMove(ids, c, m);
          ElsewhereKeeps(ids, c, m, p);
          lock.Become(d.key);
          now, lastOk := d.now, d.lastOk;
          assert Sees() == d;
        }
        rounds := rounds - 1;
      }
    }

    /** acquireShardLock: tries again until it succeeds, a call fails or the context is
        done. On success no other process is active if identities are distinct. */
    method AcquireShardLock(p: Process, patience: nat, alone: bool, fates: nat -> Fate) returns (ok: bool)
      requires Valid() && p !in lastOk
      modifies this`now, this`lastOk, lock
      ensures Valid() && (ok <==> p in lastOk)
      ensures ok ==> lastOk[p] == now && lock.key == Taken(ids(p), now + 5000)
      ensures patience > 0 && fates(0) == Replied && alone && (old(lock.key).Free? || old(lock.key).expires < old(now)) ==> ok
      ensures ok && Injective(ids) ==> forall q :: Active(Sees(), q) <==> q == p
    {
      hide Reachable;
      for i := 0 to patience
        invariant Valid() && p !in lastOk
        invariant i == 0 || !(fates(0) == Replied && alone && (old(lock.key).Free? || old(lock.key).expires < old(now)))
        invariant i == 0 ==> lock.key == old(lock.key) && now == old(now)
      {
        Others(p, alone);
        if fates(i) == Unsent {
          return false;
        }
        ghost var c := Sees();
        var taken := lock.TryAcquire(ids(p), now);
        ReachMove(ids, c, Acquire(p));
        if taken {
          lastOk := lastOk[p := now];
        }
        assert Sees() == MoveOn(ids, c, Acquire(p));
        if fates(i) == Unreplied {
          if taken {
            StopNow(p);
          }
          return false;
        }
        if taken {
          if Injective(ids) {
            ReachableIsCovered(ids, Sees());
          }
          return true;
        }
      }
      ok := false;
    }

    method StopNow(p: Process)
      requires Valid() && p in lastOk
      modifies this`lastOk
      ensures Valid() && lastOk == old(lastOk) - {p}
    {
      hide Reachable;
      ReachMove(ids, Sees(), Stop(p));
      lastOk := lastOk - {p};
    }

    /** The renew script, called for an active process or a late one. */
    method CallRenew(p: Process) returns (res: int)
      requires Valid() && p in lastOk
      modifies this`lastOk, lock
      ensures Valid() && now >= old(lastOk[p])
      ensures lastOk == if res == 1 then old(lastOk)[p := now] else old(lastOk)
      ensures res == 1 ==> lock.key == Taken(ids(p), now + 5000)
      ensures res != 1 ==> res == 0 && (Injective(ids) ==> now >= old(lastOk[p]) + 5000)
    {
      hide Reachable;
      ghost var c := Sees();
      ReachableIsPast(ids, c, p);
      if Injective(ids) {
        ReachableIsCovered(ids, c);
      }
      res := lock.RenewScript(ids(p), now);
      ReachMove(ids, c, Extend(p));
      if res == 1 {
        lastOk := lastOk[p := now];
      }
      assert Sees() == MoveOn(ids, c, Extend(p));
    }

    /** The instants of renewals, in order, and none before the process was given the lock. */
    ghost predicate InOrder(since: int, times: seq<int>) {
      && (forall i :: 0 <= i < |times| ==> since <= times[i])
      && (forall i, j :: 0 <= i < j < |times| ==> times[i] <= times[j])
    }

    ghost function Last(since: int, times: seq<int>): int {
      if times == [] then since else times[|times| - 1]
    }

    /** renewLockLoop: a renewal at every tick, however late. With distinct identities the
        lock is found lost only at least five seconds after the last successful call, so a
        worker that renews in time never loses it. */
    method RenewLockLoop(p: Process, ticks: nat, alone: bool, fates: nat -> Fate) returns (end: LoopEnd, ghost times: seq<int>)
      requires Valid() && p in lastOk
      modifies this`now, this`lastOk, lock
      ensures Valid() && p !in lastOk && InOrder(old(lastOk[p]), times)
      ensures end.LockLost? && Injective(ids) ==> now >= Last(old(lastOk[p]), times) + 5000
      ensures if end.ContextDone? then |times| == ticks else |times| < ticks
      ensures end.ContextDone? && ticks > 0 ==> lock.key == Taken(ids(p), Last(old(lastOk[p]), times) + 5000)
      ensures (forall i :: fates(i) == Replied) ==> !end.CallFailed?
    {
      hide Reachable;
      end, times := ContextDone, [];
      ghost var since := lastOk[p];
      for i := 0 to ticks
        invariant Valid() && p in lastOk && |times| == i
        invariant InOrder(since, times) && lastOk[p] == Last(since, times)
        invariant i > 0 ==> lock.key == Taken(ids(p), Last(since, times) + 5000)
      {
        Others(p, alone);
        if fates(i) == Unsent {
          StopNow(p);
          return CallFailed, times;
        }
        var res := CallRenew(p);
        if fates(i) == Unreplied {
          StopNow(p);
          return CallFailed, times;
        }
        if res == 0 {
          StopNow(p);
          return LockLost, times;
        }
        times := times + [now];
      }
      StopNow(p);
    }

    /** releaseShardLock, deferred: with distinct identities it takes nothing from another
        active process. */
    method ReleaseShardLock(p: Process, fate: Fate)
      requires Valid() && p !in lastOk
      modifies lock
      ensures Valid()
      ensures Injective(ids) ==> forall q :: Active(old(Sees()), q) ==> lock.key == old(lock.key)
      ensures fate != Unsent ==> Get(lock.key, now) != Some(ids(p))
      ensures fate == Unsent || Get(old(lock.key), now) != Some(ids(p)) ==> lock.key == old(lock.key)
    {
      hide Reachable;
      if Injective(ids) {
        ReachableIsCovered(ids, Sees());
      }
      if fate != Unsent {
        ghost var c := Sees();
        var res := lock.ReleaseScript(ids(p), now);
        ReachMove(ids, c, Unlock(p));
        assert Sees() == MoveOn(ids, c, Unlock(p));
      }
    }

    /** Run, as far as the lock is concerned. */
    method Run(p: Process, patience: nat, ticks: nat, alone: bool, acquires: nat -> Fate, renewals: nat -> Fate, release: Fate)
      returns (end: Option<LoopEnd>)
      requires Valid() && p !in lastOk
      modifies this`now, this`lastOk, lock
      ensures Valid() && p !in lastOk
      ensures patience > 0 && acquires(0) == Replied && alone && (old(lock.key).Free? || old(lock.key).expires < old(now)) ==> end.Some?
      ensures end.Some? && release != Unsent && alone ==> Get(lock.key, now) != Some(ids(p))
    {
      hide Reachable;
      end := None;
      var ok := AcquireShardLock(p, patience, alone, acquires);
      if ok {
        var why;
        ghost var times;
        why, times := RenewLockLoop(p, ticks, alone, renewals);
        end := Some(why);
        Others(p, alone);
        ReleaseShardLock(p, release);
      }
    }
  }
}

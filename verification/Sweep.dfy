/** The reconciler's timeout sweep (internal/reconciler/reconciler.go): two nested loops
    over the listed shards and their timed-out matches. Between two of its calls everyone
    else takes any steps of the protocol. */
module Sweep {
  import opened Model
  import opened Scripts
  import opened Protocol
  import opened Conservation
  import opened Matches
  import opened Requests

  /** 30 s, in nanoseconds. */
  const CONFIRMATION_TIMEOUT := 30 * SECOND

  function Deadline(now: int): int {
    UnixMilli(now - CONFIRMATION_TIMEOUT)
  }

  // ---- what time brings ------------------------------------------------------------------

  /** Matches stay what they are, and whatever forms with a score up to the deadline has
      been forming before. */
  ghost predicate Later(before: Db, after: Db, deadline: int) {
    && (forall id :: id in before.records ==> id in after.records && SameMatch(after.records[id], before.records[id]))
    && (forall id :: id in after.forming && after.forming[id] <= deadline ==>
          id in before.forming && before.forming[id] == after.forming[id])
  }

  lemma LaterReflexive(db: Db, deadline: int)
    ensures Later(db, db, deadline)
  {
  }

  lemma LaterTransitive(a: Db, b: Db, c: Db, deadline: int)
    requires Later(a, b, deadline) && Later(b, c, deadline)
    ensures Later(a, c, deadline)
  {
  }

  /** A commit that took its time after the deadline; the sweep's deadline lies 30 s back. */
  predicate OnTime(a: Action, deadline: int) {
    a.TryCommit? ==> UnixMilli(a.now) > deadline
  }

  /** Every step of the protocol leads to a later state, unless it is a commit whose time of
      formation lies before the deadline. */
  lemma StepIsLater(cfg: Config, s: Sys, a: Action, deadline: int)
    requires Reachable(cfg, s) && Enabled(cfg, s, a) && OnTime(a, deadline)
    ensures Later(s.db, Apply(cfg, s, a).db, deadline)
  {
    InvReachable(cfg, s);
    if a.TryCommit? {
      FreshMatch(cfg, s, a.now);
      CommitIsLater(cfg, s, a.now, a.fate, deadline);
    } else if a.ConfirmStep? || a.DissolveStep? {
      SettleIsLater(cfg, s, a, deadline);
    } else {
      RecordsFrame(cfg, s, a);
    }
  }

  lemma CommitIsLater(cfg: Config, s: Sys, now: int, fate: Fate, deadline: int)
    requires s.worker.Up? && s.worker.pc.Committing? && UnixMilli(now) > deadline
    requires NewMatch(cfg, s.worker.pc.group, now, s.worker.seqNo + 1).id !in s.db.records
    ensures Later(s.db, DoTryCommit(cfg, s, now, fate).db, deadline)
  {
    hide CommitAllowed, MembersOf, UnixMilli;
  }

  lemma SettleIsLater(cfg: Config, s: Sys, a: Action, deadline: int)
    requires cfg.n >= 1 && Enabled(cfg, s, a) && (a.ConfirmStep? || a.DissolveStep?)
    ensures Later(s.db, Apply(cfg, s, a).db, deadline)
  {
    hide Kept, Requeue;
    match a
    case ConfirmStep(k) => assert Later(s.db, DoConfirm(s, k).db, deadline);
    case DissolveStep(k) => assert Later(s.db, DoDissolve(s, k).db, deadline);
  }

  // ---- the sweep's own steps on a shard ------------------------------------------------------

  /** It lists a match and reads its record. */
  lemma SweepReaches(cfg: Config, s: Sys, k: nat, id: MatchID, deadline: int)
    requires Reachable(cfg, s) && cfg.n >= 1 && k !in s.ops
    requires id in s.db.records && id in s.db.forming && s.db.forming[id] <= deadline
    ensures Reachable(cfg, s.(ops := s.ops[k := DissolveRead(id, "", s.db.records[id])]))
  {
    hide Reachable;
    ReachStep(cfg, s, Sweep(k, id, deadline));
    var t := s.(ops := s.ops[k := Dissolving(id, "")]);
    ReadsReach(cfg, t, k);
    assert t.ops[k := DissolveRead(id, "", s.db.records[id])] == s.ops[k := DissolveRead(id, "", s.db.records[id])];
  }

  /** Its script runs. */
  lemma DissolveIsLater(cfg: Config, s: Sys, k: nat, deadline: int)
    requires Reachable(cfg, s) && cfg.n >= 1 && k in s.ops && s.ops[k].DissolveRead?
    ensures var t := DoDissolve(s, k);
      && Reachable(cfg, t) && Later(s.db, t.db, deadline) && t.ops == Without(s.ops, k)
      && s.ops[k].id !in t.db.forming
  {
    hide Reachable, Later;
    DissolveReaches(cfg, s, k);
    StepIsLater(cfg, s, DissolveStep(k), deadline);
    DissolveIsScript(s, k);
    StatusAgrees(cfg, DoDissolve(s, k), s.ops[k].id);
    DissolveEnds(s.db, s.ops[k].id, s.ops[k].declined, s.ops[k].rec.entries);
  }

  lemma DissolveEnds(db: Db, id: MatchID, declined: string, entries: seq<QueueEntry>)
    ensures !IsForming(Dissolve(db, id, declined, entries), id)
  {
  }

  lemma DissolveIsIdle(db: Db, id: MatchID, entries: seq<QueueEntry>)
    requires !IsForming(db, id)
    ensures Dissolve(db, id, "", entries) == db
  {
  }

  /** A match that was settled when it was read is still settled. */
  lemma StillSettled(cfg: Config, s: Sys, t: Sys, id: MatchID, deadline: int)
    requires Reachable(cfg, s) && Reachable(cfg, t) && Later(s.db, t.db, deadline)
    requires id in s.db.records && UnixMilli(s.db.records[id].formedAt) <= deadline && id !in s.db.forming
    ensures id !in t.db.forming && !IsForming(t.db, id)
  {
    hide Reachable, UnixMilli;
    StatusAgrees(cfg, t, id);
  }

  // ---- all shards ----------------------------------------------------------------------------

  type States = map<Shard, Sys>

  ghost predicate AllReachable(n: nat, w: States) {
    forall t :: t in w ==> Reachable(Config(t, n), w[t])
  }

  ghost predicate AllLater(before: States, after: States, deadline: int) {
    after.Keys == before.Keys && forall t :: t in before ==> Later(before[t].db, after[t].db, deadline)
  }

  /** Request k of the sweep is on every shard as it was. */
  ghost predicate SameEverywhere(before: States, after: States, k: nat) {
    after.Keys == before.Keys && forall t :: t in before ==> SameRequest(before[t], after[t], k)
  }

  lemma AllLaterReflexive(w: States, deadline: int)
    ensures AllLater(w, w, deadline)
  {
  }

  lemma AllLaterTransitive(a: States, b: States, c: States, deadline: int)
    requires AllLater(a, b, deadline) && AllLater(b, c, deadline)
    ensures AllLater(a, c, deadline)
  {
    forall t | t in a
      ensures Later(a[t].db, c[t].db, deadline)
    {
      LaterTransitive(a[t].db, b[t].db, c[t].db, deadline);
    }
  }

  lemma OneLater(n: nat, start: States, w: States, t: Shard, s: Sys, deadline: int)
    requires t in w && AllReachable(n, w) && AllLater(start, w, deadline)
    requires Reachable(Config(t, n), s) && Later(w[t].db, s.db, deadline)
    ensures AllReachable(n, w[t := s]) && AllLater(start, w[t := s], deadline)
  {
    hide Reachable, Later;
    LaterTransitive(start[t].db, w[t].db, s.db, deadline);
  }

  /** Formed in shard t no later than the deadline. */
  predicate TimedOut(w: States, deadline: int, t: Shard, id: MatchID) {
    t in w && id in w[t].db.forming && 0 <= w[t].db.forming[id] <= deadline
  }

  /** A match that has timed out had timed out before, with the same record. */
  lemma TimedOutBefore(n: nat, before: States, after: States, deadline: int, t: Shard, id: MatchID)
    requires AllLater(before, after, deadline) && AllReachable(n, before) && TimedOut(after, deadline, t, id)
    ensures TimedOut(before, deadline, t, id)
    ensures id in before[t].db.records && UnixMilli(before[t].db.records[id].formedAt) <= deadline
  {
    hide Reachable, UnixMilli;
    StatusAgrees(Config(t, n), before[t], id);
  }

  lemma StillRecorded(before: States, after: States, deadline: int, t: Shard, id: MatchID)
    requires AllLater(before, after, deadline) && t in before && id in before[t].db.records
    ensures t in after && id in after[t].db.records && SameMatch(after[t].db.records[id], before[t].db.records[id])
  {
  }

  /** A forming match of shard t that was formed since the epoch and at least so many
      nanoseconds ago. */
  ghost predicate FormedAgo(w: States, now: int, t: Shard, id: MatchID, nanos: int) {
    && t in w && id in w[t].db.forming && id in w[t].db.records
    && w[t].db.records[id].formedAt >= 0 && now - w[t].db.records[id].formedAt >= nanos
  }

  /** The deadline in nanoseconds: whoever has timed out was formed 30 s ago, up to the
      rounding to a millisecond, and whoever was formed 30 s ago has timed out. */
  lemma InNanoseconds(n: nat, before: States, after: States, now: int)
    requires AllReachable(n, before) && AllReachable(n, after)
    ensures forall t, id :: TimedOut(before, Deadline(now), t, id) ==> FormedAgo(before, now, t, id, 30_000_000_000 - 999_999)
    ensures forall t, id :: FormedAgo(after, now, t, id, 30_000_000_000) ==> TimedOut(after, Deadline(now), t, id)
  {
    hide Reachable, Deadline;
    forall t, id | TimedOut(before, Deadline(now), t, id)
      ensures FormedAgo(before, now, t, id, 30_000_000_000 - 999_999)
    {
      StatusAgrees(Config(t, n), before[t], id);
      DeadlineIs(now, before[t].db.records[id].formedAt);
    }
    forall t, id | FormedAgo(after, now, t, id, 30_000_000_000)
      ensures TimedOut(after, Deadline(now), t, id)
    {
      StatusAgrees(Config(t, n), after[t], id);
      DeadlineIs(now, after[t].db.records[id].formedAt);
    }
  }

  lemma DeadlineIs(now: int, formedAt: int)
    ensures UnixMilli(formedAt) <= Deadline(now) ==> now - formedAt >= 30_000_000_000 - 999_999
    ensures now - formedAt >= 30_000_000_000 ==> UnixMilli(formedAt) <= Deadline(now)
    ensures formedAt >= 0 <==> UnixMilli(formedAt) >= 0
  {
  }

  /** Which queries fail, and how the calls for each match end. */
  datatype SweepFaults = SweepFaults(query: Shard -> bool, settle: (Shard, MatchID) -> SettleFaults)

  predicate Missed(faults: SweepFaults, t: Shard, id: MatchID) {
    faults.query(t) || !Runs(faults.settle(t, id))
  }

  /** The matches that left the forming ones are those that the sweep dissolved. */
  ghost predicate Accounted(before: States, after: States, swept: set<(Shard, MatchID)>) {
    && after.Keys == before.Keys
    && forall t, id :: t in before ==>
         (id in after[t].db.forming <==> id in before[t].db.forming && (t, id) !in swept)
  }

  lemma AccountedOne(w: States, t: Shard, s: Sys, id: MatchID, dissolved: bool)
    requires t in w && s.db.forming.Keys == if dissolved then w[t].db.forming.Keys - {id} else w[t].db.forming.Keys
    ensures Accounted(w, w[t := s], if dissolved then {(t, id)} else {})
  {
  }

  lemma AccountedMore(
      a: States, b: States, c: States, swept: set<(Shard, MatchID)>, more: set<(Shard, MatchID)>, all: set<(Shard, MatchID)>)
    requires Accounted(a, b, swept) && Accounted(b, c, more) && all == swept + more
    ensures Accounted(a, c, all)
  {
  }

  lemma AccountedNone(w: States)
    ensures Accounted(w, w, {})
  {
  }

  /** A dissolve takes at most its own match from the forming ones. */
  lemma DissolveFrees(s: Sys, k: nat)
    requires k in s.ops && s.ops[k].DissolveRead?
    ensures var id := s.ops[k].id;
      DoDissolve(s, k).db.forming.Keys == if IsForming(s.db, id) then s.db.forming.Keys - {id} else s.db.forming.Keys
  {
  }

  class Reconciler {
    const n: nat
    const k: nat                             // the number of its request
    const alone: bool                        // nobody else acts
    const shards: seq<Shard>
    var states: States
    ghost var swept: set<(Shard, MatchID)>   // the matches that the calls of this sweep dissolved

    ghost predicate Valid()
      reads this
    {
      && n >= 1 && (forall t :: t in shards ==> t in states) && AllReachable(n, states)
      && (forall t :: t in states ==> k !in states[t].ops)
    }

    constructor (n: nat, k: nat, alone: bool, shards: seq<Shard>, states: States)
      requires n >= 1 && (forall t :: t in shards ==> t in states) && AllReachable(n, states)
      requires forall t :: t in states ==> k !in states[t].ops
      ensures Valid() && this.shards == shards && this.states == states && this.alone == alone && swept == {}
    {
      this.n, this.k, this.alone, this.shards, this.states, this.swept := n, k, alone, shards, states, {};
    }

    /** Everyone else takes any number of steps on any shards, commits included, unless nobody
        else is there. */
    method Interfere(deadline: int)
      requires n >= 1 && AllReachable(n, states)
      modifies this`states
      ensures AllReachable(n, states) && AllLater(old(states), states, deadline)
      ensures SameEverywhere(old(states), states, k)
      ensures alone ==> states == old(states)
    {
      hide Reachable, Later, Enabled, Apply, Touches, OnTime;
      AllLaterReflexive(states, deadline);
      if alone {
        return;
      }
      var rounds: nat :| true;
      while rounds > 0
        invariant AllReachable(n, states) && AllLater(old(states), states, deadline)
        invariant SameEverywhere(old(states), states, k)
      {
        var t: Shard, a: Action := *, *;
        if t in states && !Touches(a, k) && OnTime(a, deadline) && Enabled(Config(t, n), states[t], a) {
          var cfg, s := Config(t, n), states[t];
          ReachStep(cfg, s, a);
          StepIsLater(cfg, s, a, deadline);
          OthersKeep(cfg, s, a, k);
          OneLater(n, old(states), states, t, Apply(cfg, s, a), deadline);
          states := states[t := Apply(cfg, s, a)];
        }
        rounds := rounds - 1;
      }
    }

    /** ZRANGEBYSCORE forming 0 deadline. */
    method ZRangeByScore(t: Shard, deadline: int) returns (ids: seq<MatchID>)
      requires t in states
      ensures forall id :: id in ids <==> TimedOut(states, deadline, t, id)
    {
      ids := [];
      var forming := states[t].db.forming;
      var rest := forming.Keys;
      while rest != {}
        invariant rest <= forming.Keys
        invariant forall id :: id in ids <==> id in forming && id !in rest && 0 <= forming[id] <= deadline
        decreases |rest|
      {
        var id :| id in rest;
        if 0 <= forming[id] <= deadline {
          ids := ids + [id];
        }
        rest := rest - {id};
      }
    }

    /** matchops.Dissolve without a declining player: read the record, then run the script
        with it. A match that is settled when it is read needs no step of the protocol: the
        script will change nothing. */
    method DissolveMatch(faults: SettleFaults, t: Shard, id: MatchID, deadline: int) returns (ghost dissolved: bool)
      requires Valid() && t in states
      requires id in states[t].db.records && UnixMilli(states[t].db.records[id].formedAt) <= deadline
      modifies this
      ensures Valid() && AllLater(old(states), states, deadline)
      ensures t in states && (Runs(faults) ==> id !in states[t].db.forming)
      ensures swept == if dissolved then old(swept) + {(t, id)} else old(swept)
      ensures alone ==>
        && (dissolved <==> Runs(faults) && id in old(states)[t].db.forming)
        && Accounted(old(states), states, if dissolved then {(t, id)} else {})
    {
      hide Reachable, Later, UnixMilli, Accounted;
      AllLaterReflexive(states, deadline);
      AccountedNone(states);
      if faults.readFails {
        return false;
      }
      var cfg, s := Config(t, n), states[t];
      var rec := s.db.records[id];
      var open := id in s.db.forming;
      StatusAgrees(cfg, s, id);
      if open {
        SweepReaches(cfg, s, k, id, deadline);
        LaterReflexive(s.db, deadline);
        AccountedOne(states, t, s.(ops := s.ops[k := DissolveRead(id, "", rec)]), id, false);
        states := states[t := s.(ops := s.ops[k := DissolveRead(id, "", rec)])];
      }
      ghost var first := states;
      Interfere(deadline);
      AllLaterTransitive(old(states), first, states, deadline);
      ghost var reached := states;
      dissolved := Finish(faults, t, id, deadline, rec, open, old(states), s);
      if alone {
        ghost var more := if dissolved then {(t, id)} else {};
        AccountedMore(old(states), reached, states, {}, more, more);
      }
    }

    /** The second half: the script, unless it stays unsent. */
    method Finish(
        faults: SettleFaults, t: Shard, id: MatchID, deadline: int, rec: Match, open: bool,
        ghost start: States, ghost s: Sys)
      returns (ghost dissolved: bool)
      requires n >= 1 && (forall u :: u in shards ==> u in states) && AllReachable(n, states)
      requires forall u :: u in states && (u != t || !open) ==> k !in states[u].ops
      requires AllLater(start, states, deadline) && t in states
      requires open ==> k in states[t].ops && states[t].ops[k] == DissolveRead(id, "", rec)
      requires !open ==>
        && Reachable(Config(t, n), s) && Later(s.db, states[t].db, deadline)
        && id !in s.db.forming && id in s.db.records && UnixMilli(s.db.records[id].formedAt) <= deadline
      modifies this
      ensures Valid() && AllLater(start, states, deadline) && t in states
      ensures Runs(faults) && !faults.readFails ==> id !in states[t].db.forming
      ensures swept == if dissolved then old(swept) + {(t, id)} else old(swept)
      ensures dissolved <==> faults.script != Unsent && IsForming(old(states)[t].db, id)
      ensures Accounted(old(states), states, if dissolved then {(t, id)} else {})
    {
      hide Reachable, Later, UnixMilli, Accounted, DoDissolve, Dissolve;
      var cfg, u := Config(t, n), states[t];
      var v := if !open then u else if faults.script == Unsent then u.(ops := Without(u.ops, k)) else DoDissolve(u, k);
      LaterReflexive(u.db, deadline);
      if open {
        AbandonReaches(cfg, u, k);
        DissolveIsLater(cfg, u, k, deadline);
        DissolveFrees(u, k);
        DissolveIsScript(u, k);
      } else {
        StillSettled(cfg, s, u, id, deadline);
        DissolveIsIdle(u.db, id, rec.entries);
      }
      assert faults.script != Unsent ==> v.db == Dissolve(u.db, id, "", rec.entries);
      dissolved := faults.script != Unsent && IsForming(u.db, id);
      if dissolved {
        swept := swept + {(t, id)};
      }
      AccountedOne(states, t, v, id, dissolved);
      OneLater(n, start, states, t, v, deadline);
      states := states[t := v];
    }

    /** No match of a listed shard is left whose formation is 30 s old (or older, back to the
        epoch), except where a call failed, and the sweep dissolved only matches that were -
        whatever anyone else does in between, commits included. */
    method ProcessTimedOut(faults: SweepFaults, now: int)
      requires Valid()
      modifies this
      ensures Valid() && AllLater(old(states), states, Deadline(now))
      ensures forall t, id :: t in shards && TimedOut(states, Deadline(now), t, id) ==> Missed(faults, t, id)
      ensures forall t, id :: (t, id) in swept ==> t in shards && TimedOut(old(states), Deadline(now), t, id)
      ensures forall t, id :: t in shards && FormedAgo(states, now, t, id, 30_000_000_000) ==> Missed(faults, t, id)
      ensures forall t, id :: (t, id) in swept ==> t in shards && FormedAgo(old(states), now, t, id, 30_000_000_000 - 999_999)
      ensures alone ==> Accounted(old(states), states, swept)
    {
      hide Reachable, Later, Deadline, Accounted;
      var deadline := Deadline(now);
      swept := {};
      AccountedNone(states);
      AllLaterReflexive(states, deadline);
      for i := 0 to |shards|
        invariant Valid() && AllLater(old(states), states, deadline)
        invariant forall j, id :: 0 <= j < i && TimedOut(states, deadline, shards[j], id) ==> Missed(faults, shards[j], id)
        invariant Timely(swept, old(states), deadline) && (alone ==> Accounted(old(states), states, swept))
      {
        ghost var before := states;
        Between(deadline);
        ghost var reached := states;
        AllLaterTransitive(old(states), before, states, deadline);
        StaysSwept(faults, before, states, shards[..i], deadline);
        SweepShard(faults, shards[i], deadline, old(states));
        StaysSwept(faults, reached, states, shards[..i], deadline);
      }
      InNanoseconds(n, old(states), states, now);
    }

    /** Everyone else acts while the sweep has no request in flight. */
    method Between(deadline: int)
      requires Valid()
      modifies this`states
      ensures Valid() && AllLater(old(states), states, deadline)
      ensures alone ==> states == old(states)
    {
      hide Reachable, Later;
      Interfere(deadline);
      assert SameEverywhere(old(states), states, k);
    }

    /** The inner loop. */
    method SweepShard(faults: SweepFaults, t: Shard, deadline: int, ghost start: States)
      requires Valid() && AllLater(start, states, deadline) && t in shards && AllReachable(n, start)
      requires Timely(swept, start, deadline) && (alone ==> Accounted(start, states, swept))
      modifies this
      ensures Valid() && AllLater(start, states, deadline) && AllLater(old(states), states, deadline)
      ensures forall id :: TimedOut(states, deadline, t, id) ==> Missed(faults, t, id)
      ensures Timely(swept, start, deadline) && (alone ==> Accounted(start, states, swept))
    {
      hide Later, Reachable, AllLater, AllReachable, UnixMilli, Accounted;
      AllLaterReflexive(states, deadline);
      if faults.query(t) {
        return;
      }
      var ids := ZRangeByScore(t, deadline);
      ghost var first := states;
      for k := 0 to |ids|
        invariant Valid() && AllLater(start, states, deadline) && AllLater(first, states, deadline)
        invariant forall j :: 0 <= j < k && TimedOut(states, deadline, t, ids[j]) ==> Missed(faults, t, ids[j])
        invariant Timely(swept, start, deadline) && (alone ==> Accounted(start, states, swept))
      {
        assert ids[k] in ids;
        TimedOutBefore(n, start, first, deadline, t, ids[k]);
        SweepOne(faults, t, ids[k], deadline, start, first, ids[..k]);
      }
      forall id | TimedOut(states, deadline, t, id)
        ensures Missed(faults, t, id)
      {
        TimedOutBefore(n, first, states, deadline, t, id);
        assert id in ids;
      }
    }

    method SweepOne(
        faults: SweepFaults, t: Shard, id: MatchID, deadline: int,
        ghost start: States, ghost first: States, ghost done: seq<MatchID>)
      requires Valid() && AllLater(start, states, deadline) && AllLater(first, states, deadline)
      requires AllReachable(n, first) && TimedOut(first, deadline, t, id)
      requires forall j :: 0 <= j < |done| && TimedOut(states, deadline, t, done[j]) ==> Missed(faults, t, done[j])
      requires alone ==> Accounted(start, states, swept)
      modifies this
      ensures Valid() && AllLater(start, states, deadline) && AllLater(first, states, deadline)
      ensures TimedOut(states, deadline, t, id) ==> Missed(faults, t, id)
      ensures forall j :: 0 <= j < |done| && TimedOut(states, deadline, t, done[j]) ==> Missed(faults, t, done[j])
      ensures swept == old(swept) || swept == old(swept) + {(t, id)}
      ensures alone ==> Accounted(start, states, swept)
    {
      hide Later, Reachable, AllLater, AllReachable, UnixMilli, Accounted;
      AllLaterReflexive(first, deadline);
      TimedOutBefore(n, first, first, deadline, t, id);
      ghost var before := states;
      Between(deadline);
      ghost var reached := states;
      AllLaterTransitive(first, before, states, deadline);
      AllLaterTransitive(start, before, states, deadline);
      StillRecorded(first, states, deadline, t, id);
      ghost var dissolved := DissolveMatch(faults.settle(t, id), t, id, deadline);
      if alone {
        AccountedMore(start, reached, states, old(swept), if dissolved then {(t, id)} else {}, swept);
      }
      AllLaterTransitive(before, reached, states, deadline);
      AllLaterTransitive(first, before, states, deadline);
      AllLaterTransitive(start, before, states, deadline);
      forall j | 0 <= j < |done| && TimedOut(states, deadline, t, done[j])
        ensures Missed(faults, t, done[j])
      {
        TimedOutBefore(n, before, states, deadline, t, done[j]);
      }
    }

    lemma StaysSwept(faults: SweepFaults, before: States, after: States, done: seq<Shard>, deadline: int)
      requires AllLater(before, after, deadline) && AllReachable(n, before)
      requires forall j, id :: 0 <= j < |done| && TimedOut(before, deadline, done[j], id) ==> Missed(faults, done[j], id)
      ensures forall j, id :: 0 <= j < |done| && TimedOut(after, deadline, done[j], id) ==> Missed(faults, done[j], id)
    {
      forall j, id | 0 <= j < |done| && TimedOut(after, deadline, done[j], id)
        ensures Missed(faults, done[j], id)
      {
        TimedOutBefore(n, before, after, deadline, done[j], id);
      }
    }

    ghost predicate Timely(swept: set<(Shard, MatchID)>, start: States, deadline: int) {
      forall t, id :: (t, id) in swept ==> t in shards && TimedOut(start, deadline, t, id)
    }
  }
}

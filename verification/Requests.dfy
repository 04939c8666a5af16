/** The accept and decline handlers of internal/api/handler.go and the two-phase Confirm
    and Dissolve of internal/matchops/ops.go over the shard's keys. Between two Redis calls
    the worker, the reconciler and other requests take any number of steps. */
module Requests {
  import opened Model
  import opened Scripts
  import opened Protocol
  import opened Conservation
  import opened Matches
  import opened Argv
  import opened Redis
  import opened PopLoop
  import World

  /** The HTTP answers of the two handlers. */
  datatype Answer = BadRequest | InternalError | NotFound | Gone | Conflict | NoContent

  /** How the two calls of Confirm and Dissolve end: readMatch may fail, and the script may
      stay unsent or unanswered; and whether nobody else acts meanwhile. */
  datatype SettleFaults = SettleFaults(readFails: bool, script: Fate, alone: bool)

  /** How the calls of the accept handler end. */
  datatype AcceptFaults = AcceptFaults(recordFails: bool, script: Fate, statusFails: bool, settle: SettleFaults)

  /** The script of Confirm or Dissolve runs, if there is a record. */
  predicate Runs(f: SettleFaults) {
    !f.readFails && f.script != Unsent
  }

  // ---- what everyone else leaves alone ------------------------------------------------------

  /** The action belongs to request number k. */
  predicate Touches(a: Action, k: nat) {
    match a
    case AcceptCall(j, _, _) => j == k
    case AcceptStep(j) => j == k
    case ConfirmReadStep(j) => j == k
    case ConfirmStep(j) => j == k
    case DeclineCall(j, _, _) => j == k
    case Sweep(j, _, _) => j == k
    case DissolveReadStep(j) => j == k
    case DissolveStep(j) => j == k
    case Abandon(j) => j == k
    case _ => false
  }

  ghost predicate SameRequest(s: Sys, t: Sys, k: nat) {
    (k in t.ops <==> k in s.ops) && (k in s.ops && k in t.ops ==> t.ops[k] == s.ops[k])
  }

  lemma OthersKeep(cfg: Config, s: Sys, a: Action, k: nat)
    requires cfg.n >= 1 && Enabled(cfg, s, a) && !Touches(a, k)
    ensures SameRequest(s, Apply(cfg, s, a), k)
  {
    if ByWorker(a) && !a.TryCommit? {
      WorkerFrame(cfg, s, a);
    }
  }

  /** What holds of a match from now on: it stays, with its players; a final status stays;
      nobody takes back an accept or a decline. */
  ghost predicate Ahead(a: Db, b: Db, id: MatchID) {
    && (id in a.records && id in a.status ==>
          && id in b.records && id in b.status && SameMatch(b.records[id], a.records[id])
          && (a.status[id] != Forming ==> b.status[id] == a.status[id]))
    && Lookup(a.accepted, id) <= Lookup(b.accepted, id)
    && Lookup(a.declined, id) <= Lookup(b.declined, id)
  }

  lemma AheadTransitive(a: Db, b: Db, c: Db, id: MatchID)
    requires Ahead(a, b, id) && Ahead(b, c, id)
    ensures Ahead(a, c, id)
  {
  }

  lemma AheadReflexive(a: Db, id: MatchID)
    ensures Ahead(a, a, id)
  {
  }

  lemma StepAhead(cfg: Config, s: Sys, a: Action, id: MatchID)
    requires Reachable(cfg, s) && Enabled(cfg, s, a)
    ensures Ahead(s.db, Apply(cfg, s, a).db, id)
  {
    hide Apply, Enabled;
    InvReachable(cfg, s);
    DeclinedGrow(cfg, s, a, id);
    AcceptorsGrowThenFreeze(cfg, s, a, id);
    if id in s.db.records && id in s.db.status {
      MatchFollows(cfg, s, a, id);
    }
  }

  // ---- the steps of a request ----------------------------------------------------------------

  lemma JoinReaches(cfg: Config, s: Sys, e: QueueEntry)
    requires Reachable(cfg, s) && cfg.n >= 1 && Encoded(e) !in s.hist.scores && e.playerID != ""
    ensures Reachable(cfg, Arrive(s, Encoded(e), UnixMilli(e.enqueuedAt)))
  {
    hide Reachable, Arrive;
    ReachStep(cfg, s, Join(e));
  }

  lemma CancelReaches(cfg: Config, s: Sys, p: string)
    requires Reachable(cfg, s) && cfg.n >= 1
    ensures Reachable(cfg, s.(db := Scripts.Cancel(s.db, p)))
  {
    hide Reachable;
    ReachStep(cfg, s, CancelPlayer(p));
  }

  lemma AcceptReaches(cfg: Config, s: Sys, k: nat)
    requires Reachable(cfg, s) && cfg.n >= 1 && k in s.ops && s.ops[k].Accepting?
    ensures Reachable(cfg, DoAccept(s, k)) && Ahead(s.db, DoAccept(s, k).db, s.ops[k].id)
  {
    hide Reachable, DoAccept, Ahead;
    ReachStep(cfg, s, AcceptStep(k));
    StepAhead(cfg, s, AcceptStep(k), s.ops[k].id);
  }

  lemma ConfirmReaches(cfg: Config, s: Sys, k: nat)
    requires Reachable(cfg, s) && cfg.n >= 1 && k in s.ops && s.ops[k].ConfirmRead?
    ensures Reachable(cfg, DoConfirm(s, k)) && Ahead(s.db, DoConfirm(s, k).db, s.ops[k].id)
  {
    hide Reachable, DoConfirm, Ahead;
    ReachStep(cfg, s, ConfirmStep(k));
    StepAhead(cfg, s, ConfirmStep(k), s.ops[k].id);
  }

  lemma DeclineReaches(cfg: Config, s: Sys, k: nat, id: MatchID, p: string)
    requires Reachable(cfg, s) && cfg.n >= 1 && k !in s.ops && p != ""
    ensures Reachable(cfg, DoDecline(s, k, id, p)) && Ahead(s.db, DoDecline(s, k, id, p).db, id)
  {
    hide Reachable, DoDecline, Ahead;
    ReachStep(cfg, s, DeclineCall(k, id, p));
    StepAhead(cfg, s, DeclineCall(k, id, p), id);
  }

  lemma DissolveReaches(cfg: Config, s: Sys, k: nat)
    requires Reachable(cfg, s) && cfg.n >= 1 && k in s.ops && s.ops[k].DissolveRead?
    ensures Reachable(cfg, DoDissolve(s, k)) && Ahead(s.db, DoDissolve(s, k).db, s.ops[k].id)
  {
    hide Reachable, DoDissolve, Ahead;
    ReachStep(cfg, s, DissolveStep(k));
    StepAhead(cfg, s, DissolveStep(k), s.ops[k].id);
  }

  lemma OpensReach(cfg: Config, s: Sys, k: nat, id: MatchID, p: string)
    requires Reachable(cfg, s) && cfg.n >= 1 && k !in s.ops && id in s.db.records
    ensures Reachable(cfg, s.(ops := s.ops[k := Accepting(id, p, |s.db.records[id].playerIDs|)]))
  {
    hide Reachable;
    ReachStep(cfg, s, AcceptCall(k, id, p));
  }

  lemma AbandonReaches(cfg: Config, s: Sys, k: nat)
    requires Reachable(cfg, s) && cfg.n >= 1 && k in s.ops
    ensures Reachable(cfg, s.(ops := Without(s.ops, k)))
  {
    hide Reachable;
    ReachStep(cfg, s, Abandon(k));
  }

  lemma ReadsReach(cfg: Config, s: Sys, k: nat)
    requires Reachable(cfg, s) && cfg.n >= 1 && k in s.ops && s.ops[k].id in s.db.records
    ensures s.ops[k].Confirming? ==> Reachable(cfg, s.(ops := s.ops[k := ConfirmRead(s.ops[k].id, s.db.records[s.ops[k].id])]))
    ensures s.ops[k].Dissolving? ==>
      Reachable(cfg, s.(ops := s.ops[k := DissolveRead(s.ops[k].id, s.ops[k].declined, s.db.records[s.ops[k].id])]))
  {
    hide Reachable;
    if s.ops[k].Confirming? {
      ReachStep(cfg, s, ConfirmReadStep(k));
    } else if s.ops[k].Dissolving? {
      ReachStep(cfg, s, DissolveReadStep(k));
    }
  }

  /** Record and status exist together. */
  lemma RecordHasStatus(cfg: Config, s: Sys, id: MatchID)
    requires Reachable(cfg, s)
    ensures id in s.db.records <==> id in s.db.status
    ensures id in s.db.records ==> (IsForming(s.db, id) || s.db.status[id] == Confirmed || s.db.status[id] == Dissolved)
  {
    StatusAgrees(cfg, s, id);
  }

  lemma DissolveIsScript(s: Sys, k: nat)
    requires k in s.ops && s.ops[k].DissolveRead?
    ensures var t := DoDissolve(s, k);
      && t.worker == s.worker && t.ops == Without(s.ops, k)
      && t.db == Scripts.Dissolve(s.db, s.ops[k].id, s.ops[k].declined, s.ops[k].rec.entries)
  {
  }

  /** A match is counted as settled exactly when it is. */
  lemma SettledCount(cfg: Config, s: Sys, id: MatchID)
    requires Reachable(cfg, s)
    ensures s.hist.settled[id] == if id in s.db.status && s.db.status[id] != Forming then 1 else 0
  {
    SettledOnce(cfg, s, id);
  }

  // ---- the handlers ----------------------------------------------------------------------------

  class Handler {
    const cfg: Config
    const keys: ShardKeys
    var worker: Worker
    var ops: map<nat, Op>
    var hist: History

    function Sees(): Sys
      reads this, keys
    {
      Sys(keys.View(), worker, ops, hist)
    }

    ghost predicate Valid()
      reads this, keys
    {
      cfg.n >= 1 && Reachable(cfg, Sees())
    }

    constructor (cfg: Config, keys: ShardKeys, worker: Worker, ops: map<nat, Op>, hist: History)
      requires cfg.n >= 1 && Reachable(cfg, Sys(keys.View(), worker, ops, hist))
      ensures Valid() && this.cfg == cfg && this.keys == keys && Sees() == Sys(keys.View(), worker, ops, hist)
    {
      this.cfg, this.keys, this.worker, this.ops, this.hist := cfg, keys, worker, ops, hist;
    }

    /** Everyone but request k takes any number of steps, unless nobody else is there. */
    method Interfere(k: nat, alone: bool, ghost id: MatchID)
      requires Valid()
      modifies this, keys
      ensures Valid() && SameRequest(old(Sees()), Sees(), k)
      ensures Ahead(old(keys.View()), keys.View(), id)
      ensures alone ==> Sees() == old(Sees())
    {
      hide Reachable, Ahead, Enabled, Apply, Touches;
      ghost var was := Sees();
      AheadReflexive(was.db, id);
      if alone {
        return;
      }
      var rounds: nat :| true;
      while rounds > 0
        invariant Valid() && SameRequest(was, Sees(), k) && Ahead(was.db, keys.View(), id)
      {
        var a: Action := *;
        var s := Sees();
        if !Touches(a, k) && Enabled(cfg, s, a) {
          var t := Apply(cfg, s, a);
          OthersKeep(cfg, s, a, k);
          ReachStep(cfg, s, a);
          StepAhead(cfg, s, a, id);
          AheadTransitive(was.db, s.db, t.db, id);
          keys.Become(t.db);
          worker, ops, hist := t.worker, t.ops, t.hist;
          assert Sees() == t;
        }
        rounds := rounds - 1;
      }
    }

    /** queue.Client.Join, for an entry whose rating leads to this shard: a join that gets its
        reply never fails, whether or not the player waits already or is cancelled, and the
        entry waits with the millisecond of its enqueueing as its score. */
    method Join(fate: Fate, region: string, mode: string, e: QueueEntry) returns (ok: bool)
      requires Valid() && World.Target(region, mode, e) == cfg.shard
      requires Encoded(e) !in hist.scores && e.playerID != ""
      modifies this`hist, keys
      ensures Valid() && (ok <==> fate == Replied)
      ensures keys.View() == if fate == Unsent then old(keys.View())
        else old(keys.View()).(queue := old(keys.queue)[Encoded(e) := UnixMilli(e.enqueuedAt)])
      ensures hist.scores == if fate == Unsent then old(hist.scores) else old(hist.scores)[Encoded(e) := UnixMilli(e.enqueuedAt)]
    {
      hide Reachable;
      if fate != Unsent {
        var s := Sees();
        JoinReaches(cfg, s, e);
        keys.JoinScript(e);
        hist := Arrive(s, Encoded(e), UnixMilli(e.enqueuedAt)).hist;
        assert Sees() == Arrive(s, Encoded(e), UnixMilli(e.enqueuedAt));
      }
      ok := fate == Replied;
    }

    /** queue.Client.Cancel: records the player and touches no entry. */
    method Cancel(fate: Fate, p: string) returns (ok: bool)
      requires Valid()
      modifies keys
      ensures Valid() && (ok <==> fate == Replied)
      ensures keys.View() == if fate == Unsent then old(keys.View())
        else old(keys.View()).(cancelled := old(keys.cancelled) + {p})
    {
      hide Reachable;
      if fate != Unsent {
        ghost var s := Sees();
        CancelReaches(cfg, s, p);
        keys.CancelScript(p);
        assert Sees() == s.(db := Scripts.Cancel(s.db, p));
      }
      ok := fate == Replied;
    }

    /** Confirm: read the record, then run the script with the players of that reading. */
    method Confirm(faults: SettleFaults, k: nat, id: MatchID) returns (published: bool)
      requires Valid() && k in ops && ops[k] == Confirming(id)
      modifies this, keys
      ensures Valid() && k !in ops && Ahead(old(keys.View()), keys.View(), id)
      ensures published ==> id in keys.status && keys.status[id] == Confirmed && IsForming(old(keys.View()), id)
      ensures published ==> old(hist.settled)[id] == 0 && hist.settled[id] == 1
      ensures faults.alone ==>
        (published <==> Runs(faults) && faults.script == Replied && id in old(keys.records) && IsForming(old(keys.View()), id))
      ensures faults.alone ==>
        keys.View() == if Runs(faults) && id in old(keys.records) then Scripts.Confirm(old(keys.View()), id) else old(keys.View())
      ensures faults.alone && Runs(faults) && id in old(keys.records) && IsForming(old(keys.View()), id) ==>
        keys.status == old(keys.status)[id := Confirmed] && hist.settled[id] == 1
      ensures Runs(faults) && id in old(keys.records) ==> id in keys.status && !IsForming(keys.View(), id)
    {
      hide Reachable, Ahead, DoConfirm, Scripts.Confirm;
      ghost var was := keys.View();
      AheadReflexive(was, id);
      AbandonReaches(cfg, Sees(), k);
      if faults.readFails || id !in keys.records {
        ops := Without(ops, k);
        return false;
      }
      RecordHasStatus(cfg, Sees(), id);
      SettledCount(cfg, Sees(), id);
      ReadsReach(cfg, Sees(), k);
      var rec := keys.records[id];
      ops := ops[k := ConfirmRead(id, rec)];
      Interfere(k, faults.alone, id);
      ghost var middle := keys.View();
      AheadKnown(was, middle, id);
      if faults.script == Unsent {
        AbandonReaches(cfg, Sees(), k);
        ops := Without(ops, k);
        published := false;
      } else {
        var reply := RunConfirm(k, id, rec);
        published := faults.script == Replied && reply == 1;
        AheadTransitive(was, middle, keys.View(), id);
      }
    }

    /** The script of Confirm, with the record of the earlier reading. */
    method RunConfirm(k: nat, id: MatchID, rec: Match) returns (reply: int)
      requires Valid() && k in ops && ops[k] == ConfirmRead(id, rec) && id in keys.status
      modifies this`ops, this`hist, keys
      ensures Valid() && k !in ops && Ahead(old(keys.View()), keys.View(), id)
      ensures reply == if IsForming(old(keys.View()), id) then 1 else 0
      ensures keys.View() == Scripts.Confirm(old(keys.View()), id)
      ensures keys.status == if reply == 1 then old(keys.status)[id := Confirmed] else old(keys.status)
      ensures id in keys.status && !IsForming(keys.View(), id) && hist.settled[id] == 1
    {
      hide Reachable, Ahead, DoConfirm, Scripts.Confirm;
      var s := Sees();
      ConfirmReaches(cfg, s, k);
      ConfirmIsScript(s, k);
      var t := DoConfirm(s, k);
      var args := PackConfirmArgs(id, rec.playerIDs);
      reply := keys.ConfirmScript(id, args, MATCH_TTL, rec.playerIDs);
      ops, hist := t.ops, t.hist;
      assert Sees() == t;
      ConfirmSettles(s.db, id);
      SettledCount(cfg, t, id);
    }

    lemma AheadKnown(a: Db, b: Db, id: MatchID)
      requires Ahead(a, b, id) && id in a.records && id in a.status
      ensures id in b.records && id in b.status && (a.status[id] != Forming ==> b.status[id] == a.status[id])
      ensures SameMatch(b.records[id], a.records[id])
    {
    }

    lemma AheadSets(a: Db, b: Db, id: MatchID)
      requires Ahead(a, b, id)
      ensures Lookup(a.accepted, id) <= Lookup(b.accepted, id) && Lookup(a.declined, id) <= Lookup(b.declined, id)
    {
    }

    lemma ConfirmIsScript(s: Sys, k: nat)
      requires k in s.ops && s.ops[k].ConfirmRead?
      ensures var t := DoConfirm(s, k);
        t.worker == s.worker && t.db == Scripts.Confirm(s.db, s.ops[k].id) && t.ops == Without(s.ops, k)
    {
    }

    lemma ConfirmSettles(db: Db, id: MatchID)
      requires id in db.status
      ensures id in Scripts.Confirm(db, id).status && !IsForming(Scripts.Confirm(db, id), id)
      ensures Scripts.Confirm(db, id).status == if IsForming(db, id) then db.status[id := Confirmed] else db.status
    {
    }

    method PackConfirmArgs(id: MatchID, playerIDs: seq<string>) returns (args: seq<Arg>)
      ensures args == PackConfirm(600, id, playerIDs)
    {
      args := [Num(MATCH_TTL), Key(id)];
      for i := 0 to |playerIDs|
        invariant args == [Num(MATCH_TTL), Key(id)] + Texts(playerIDs[..i])
      {
        args := args + [Text(playerIDs[i])];
      }
      assert playerIDs[..|playerIDs|] == playerIDs;
    }

    /** Dissolve: read the record, pack its entries, then run the script. */
    method Dissolve(faults: SettleFaults, k: nat, id: MatchID, decliner: string) returns (published: bool)
      requires Valid() && k in ops && ops[k] == Dissolving(id, decliner)
      modifies this, keys
      ensures Valid() && k !in ops && Ahead(old(keys.View()), keys.View(), id)
      ensures published ==> id in keys.status && keys.status[id] == Dissolved && IsForming(old(keys.View()), id)
      ensures published ==> old(hist.settled)[id] == 0 && hist.settled[id] == 1
      ensures faults.alone ==>
        (published <==> Runs(faults) && faults.script == Replied && id in old(keys.records) && IsForming(old(keys.View()), id))
      ensures faults.alone ==>
        keys.View() == if Runs(faults) && id in old(keys.records)
          then Scripts.Dissolve(old(keys.View()), id, decliner, old(keys.records)[id].entries) else old(keys.View())
      ensures faults.alone && Runs(faults) && id in old(keys.records) && IsForming(old(keys.View()), id) ==>
        keys.status == old(keys.status)[id := Dissolved] && hist.settled[id] == 1
      ensures Runs(faults) && id in old(keys.records) ==> id in keys.status && !IsForming(keys.View(), id)
    {
      hide Reachable, Ahead, DoDissolve, Scripts.Dissolve;
      ghost var was := keys.View();
      AheadReflexive(was, id);
      AbandonReaches(cfg, Sees(), k);
      if faults.readFails || id !in keys.records {
        ops := Without(ops, k);
        return false;
      }
      RecordHasStatus(cfg, Sees(), id);
      SettledCount(cfg, Sees(), id);
      ReadsReach(cfg, Sees(), k);
      var rec := keys.records[id];
      ops := ops[k := DissolveRead(id, decliner, rec)];
      Interfere(k, faults.alone, id);
      ghost var middle := keys.View();
      AheadKnown(was, middle, id);
      if faults.script == Unsent {
        AbandonReaches(cfg, Sees(), k);
        ops := Without(ops, k);
        published := false;
      } else {
        var reply := RunDissolve(k, id, decliner, rec);
        published := faults.script == Replied && reply == 1;
        AheadTransitive(was, middle, keys.View(), id);
      }
    }

    /** The script of Dissolve, with the record of the earlier reading. */
    method RunDissolve(k: nat, id: MatchID, decliner: string, rec: Match) returns (reply: int)
      requires Valid() && k in ops && ops[k] == DissolveRead(id, decliner, rec) && id in keys.status
      modifies this`ops, this`hist, keys
      ensures Valid() && k !in ops && Ahead(old(keys.View()), keys.View(), id)
      ensures reply == if IsForming(old(keys.View()), id) then 1 else 0
      ensures keys.View() == Scripts.Dissolve(old(keys.View()), id, decliner, rec.entries)
      ensures keys.status == if reply == 1 then old(keys.status)[id := Dissolved] else old(keys.status)
      ensures id in keys.status && !IsForming(keys.View(), id) && hist.settled[id] == 1
    {
      hide Reachable, Ahead, DoDissolve, Scripts.Dissolve;
      var s := Sees();
      DissolveReaches(cfg, s, k);
      DissolveIsScript(s, k);
      var t := DoDissolve(s, k);
      var args := PackDissolveArgs(id, decliner, rec.entries);
      reply := keys.DissolveScript(id, args, MATCH_TTL, decliner, rec.entries);
      ops, hist := t.ops, t.hist;
      assert Sees() == t;
      DissolveSettles(s.db, id, decliner, rec.entries);
      SettledCount(cfg, t, id);
    }

    lemma DissolveSettles(db: Db, id: MatchID, decliner: string, entries: seq<QueueEntry>)
      requires id in db.status
      ensures var after := Scripts.Dissolve(db, id, decliner, entries);
        && id in after.status && !IsForming(after, id)
        && after.status == if IsForming(db, id) then db.status[id := Dissolved] else db.status
    {
    }

    method PackDissolveArgs(id: MatchID, decliner: string, entries: seq<QueueEntry>) returns (args: seq<Arg>)
      ensures args == PackDissolve(600, id, decliner, entries)
    {
      args := [Num(MATCH_TTL), Key(id), Text(decliner)];
      ghost var front := args;
      for i := 0 to |entries|
        invariant args == front + Triples(entries[..i])
      {
        var e := entries[i];
        assert entries[..i + 1][..i] == entries[..i];
        args := args + [Text(e.playerID), Num(UnixMilli(e.enqueuedAt)), Raw(Encoded(e))];
      }
      assert entries[..|entries|] == entries;
    }

    /** The accept handler. Its answers are about the match as it is when the handler
        returns. 404 stands for an unknown match, for a record that could not be read, and
        for a settled match whose status could not be read. The call that sees the full count
        does not return before the match is settled, unless its confirm script never ran. */
    method Accept(faults: AcceptFaults, k: nat, id: MatchID, p: string)
      returns (answer: Answer, reply: int, ghost need: int)
      requires Valid() && k !in ops
      modifies this, keys
      ensures Valid() && k !in ops && Ahead(old(keys.View()), keys.View(), id)
      ensures answer == BadRequest <==> p == ""
      ensures answer == NotFound <==>
        p != "" && (faults.recordFails || id !in old(keys.records)
                    || (faults.script == Replied && reply == -1 && faults.statusFails))
      ensures answer == InternalError <==> p != "" && !faults.recordFails && id in old(keys.records) && faults.script != Replied
      ensures p != "" && !faults.recordFails && id in old(keys.records) && faults.script != Unsent ==>
        need == |old(keys.records)[id].playerIDs|
        && (!IsForming(old(keys.View()), id) ==> reply == -1) && (reply == -1 ==> !IsForming(keys.View(), id))
      ensures p != "" && !faults.recordFails && id in old(keys.records) && faults.script == Replied ==>
        && (reply == -1 && !faults.statusFails ==>
              id in keys.status && answer == if keys.status[id] == Dissolved then Gone else NoContent)
        && (reply == -2 <==> answer == Conflict)
        && (reply == -3 || reply >= 0 ==> answer == NoContent)
      ensures answer == Gone ==> id in keys.status && keys.status[id] == Dissolved
      ensures answer == Conflict ==> p in Lookup(keys.declined, id)
      ensures answer == NoContent ==> id in keys.status && (keys.status[id] == Confirmed || p in Lookup(keys.accepted, id))
      ensures answer == NoContent && reply == need && Runs(faults.settle) ==> !IsForming(keys.View(), id)
      ensures p != "" && !faults.recordFails && id in old(keys.records) && faults.script != Unsent && faults.settle.alone ==>
        reply == (if !IsForming(old(keys.View()), id) then -1
                  else if p in Lookup(old(keys.declined), id) then -2
                  else if p in Lookup(old(keys.accepted), id) then -3
                  else |Lookup(old(keys.accepted), id)| + 1)
      ensures answer == NoContent && reply >= 0 && reply == need && Runs(faults.settle) && faults.settle.alone ==>
        id in keys.status && keys.status[id] == Confirmed
      ensures p != "" && !faults.recordFails && id in old(keys.records) && faults.script != Unsent && faults.settle.alone ==>
        (var after := Scripts.Accept(old(keys.View()), id, p);
         keys.View() == if faults.script == Replied && reply == need && Runs(faults.settle) then Scripts.Confirm(after, id) else after)
    {
      hide Reachable, Ahead, DoAccept, Scripts.Accept, Scripts.Confirm;
      reply, need := 0, 0;
      ghost var was := keys.View();
      AheadReflexive(was, id);
      if p == "" {
        return BadRequest, 0, 0;
      }
      if faults.recordFails || id !in keys.records {
        return NotFound, 0, 0;
      }
      var threshold := |keys.records[id].playerIDs|;
      need := threshold;
      RecordHasStatus(cfg, Sees(), id);
      OpensReach(cfg, Sees(), k, id, p);
      ops := ops[k := Accepting(id, p, threshold)];
      Interfere(k, faults.settle.alone, id);
      ghost var middle := keys.View();
      AheadKnown(was, middle, id);
      if faults.script == Unsent {
        AbandonReaches(cfg, Sees(), k);
        ops := Without(ops, k);
        return InternalError, 0, need;
      }
      reply := CallAccept(k, id, p, threshold);
      assert !IsForming(was, id) ==> !IsForming(middle, id);
      ghost var after := keys.View();
      AheadTransitive(was, middle, after, id);
      AheadKnown(middle, after, id);
      if faults.script == Unreplied {
        if k in ops {
          AbandonReaches(cfg, Sees(), k);
          ops := Without(ops, k);
        }
        return InternalError, reply, need;
      }
      if reply == -1 {
        assert k !in ops;
        Interfere(k, faults.settle.alone, id);
        AheadTransitive(was, after, keys.View(), id);
        AheadKnown(after, keys.View(), id);
        RecordHasStatus(cfg, Sees(), id);
        answer := if faults.statusFails || id !in keys.status || keys.status[id] == Forming then NotFound
          else if keys.status[id] == Confirmed then NoContent else Gone;
      } else if reply == -2 {
        answer := Conflict;
      } else if reply == -3 {
        answer := NoContent;
      } else {
        if reply == threshold {
          ConfirmFull(faults.settle, k, id);
          AheadTransitive(was, after, keys.View(), id);
          AheadSets(after, keys.View(), id);
          AheadKnown(after, keys.View(), id);
        }
        answer := NoContent;
      }
    }

    /** After the full count. */
    method ConfirmFull(settle: SettleFaults, k: nat, id: MatchID)
      requires Valid() && k in ops && ops[k] == Confirming(id) && id in keys.records && id in keys.status
      modifies this, keys
      ensures Valid() && k !in ops && Ahead(old(keys.View()), keys.View(), id)
      ensures Runs(settle) ==> id in keys.status && !IsForming(keys.View(), id)
      ensures Runs(settle) && settle.alone && IsForming(old(keys.View()), id) ==> id in keys.status && keys.status[id] == Confirmed
      ensures settle.alone ==> keys.View() == if Runs(settle) then Scripts.Confirm(old(keys.View()), id) else old(keys.View())
    {
      hide Reachable, Ahead, Scripts.Confirm;
      ghost var was := keys.View();
      Interfere(k, settle.alone, id);
      ghost var before := keys.View();
      AheadKnown(was, before, id);
      var published := Confirm(settle, k, id);
      AheadTransitive(was, before, keys.View(), id);
    }

    /** The accept script; a full count turns the request into a confirm. */
    method CallAccept(k: nat, id: MatchID, p: string, need: nat) returns (reply: int)
      requires Valid() && k in ops && ops[k] == Accepting(id, p, need) && id in keys.records && id in keys.status
      modifies this, keys
      ensures Valid() && Ahead(old(keys.View()), keys.View(), id)
      ensures keys.View() == Scripts.Accept(old(keys.View()), id, p)
      ensures keys.status == old(keys.status) && reply >= -3
      ensures reply == -1 <==> !IsForming(old(keys.View()), id)
      ensures reply == -2 ==> p in Lookup(keys.declined, id)
      ensures reply == -3 || reply >= 0 ==> p in Lookup(keys.accepted, id)
      ensures reply == (if !IsForming(old(keys.View()), id) then -1
                        else if p in Lookup(old(keys.declined), id) then -2
                        else if p in Lookup(old(keys.accepted), id) then -3
                        else |Lookup(old(keys.accepted), id)| + 1)
      ensures if reply == need then k in ops && ops[k] == Confirming(id) else k !in ops
    {
      hide Reachable, Ahead, DoAccept, Scripts.Accept, AcceptReply;
      var s := Sees();
      AcceptReaches(cfg, s, k);
      AcceptIsScript(s, k);
      AcceptMeans(s.db, id, p);
      var t := DoAccept(s, k);
      reply := keys.AcceptScript(id, p);
      ops, hist := t.ops, t.hist;
      assert Sees() == t;
    }

    lemma AcceptIsScript(s: Sys, k: nat)
      requires k in s.ops && s.ops[k].Accepting?
      ensures var t, op := DoAccept(s, k), s.ops[k];
        && t.worker == s.worker && t.db == Scripts.Accept(s.db, op.id, op.player)
        && t.ops == if AcceptReply(s.db, op.id, op.player) == op.need then s.ops[k := Confirming(op.id)] else Without(s.ops, k)
    {
    }

    lemma AcceptMeans(db: Db, id: MatchID, p: string)
      requires id in db.status
      ensures var reply, after := AcceptReply(db, id, p), Scripts.Accept(db, id, p);
        && (reply == -1 <==> !IsForming(db, id))
        && (reply == -2 ==> p in Lookup(after.declined, id))
        && (reply == -3 || reply >= 0 ==> p in Lookup(after.accepted, id))
        && reply >= -3 && after.status == db.status && after.records == db.records
        && reply == (if !IsForming(db, id) then -1
                     else if p in Lookup(db.declined, id) then -2
                     else if p in Lookup(db.accepted, id) then -3
                     else |Lookup(db.accepted, id)| + 1)
    {
    }

    /** The decline handler: the first decline of a player does not return before the match
        is settled, unless the dissolve script never ran. */
    method Decline(scriptFate: Fate, settle: SettleFaults, k: nat, id: MatchID, p: string) returns (answer: Answer)
      requires Valid() && k !in ops
      modifies this, keys
      ensures Valid() && k !in ops && Ahead(old(keys.View()), keys.View(), id)
      ensures answer == BadRequest <==> p == ""
      ensures answer == InternalError <==> p != "" && scriptFate != Replied
      ensures answer == NotFound <==> p != "" && scriptFate == Replied && !IsForming(old(keys.View()), id)
      ensures answer == NoContent ==> p in Lookup(keys.declined, id)
      ensures answer == NoContent && Runs(settle) && p !in Lookup(old(keys.declined), id) ==>
        id in keys.status && !IsForming(keys.View(), id)
      ensures answer == NoContent && Runs(settle) && settle.alone && p !in Lookup(old(keys.declined), id) && id in old(keys.records) ==>
        id in keys.status && keys.status[id] == Dissolved
      ensures p != "" && scriptFate != Unsent && settle.alone && id in old(keys.records) ==>
        (var after := Scripts.Decline(old(keys.View()), id, p);
         keys.View() ==
           if answer == NoContent && Runs(settle) && p !in Lookup(old(keys.declined), id)
           then Scripts.Dissolve(after, id, p, old(keys.records)[id].entries) else after)
    {
      hide Reachable, Ahead, DoDecline, Scripts.Decline, DeclineReply, Scripts.Dissolve;
      ghost var was := keys.View();
      AheadReflexive(was, id);
      if p == "" {
        return BadRequest;
      }
      if scriptFate == Unsent {
        return InternalError;
      }
      var s := Sees();
      RecordHasStatus(cfg, s, id);
      DeclineReaches(cfg, s, k, id, p);
      DeclineIsScript(s, k, id, p);
      var t := DoDecline(s, k, id, p);
      var reply := keys.DeclineScript(id, p);
      ops := t.ops;
      assert Sees() == t;
      if scriptFate == Unreplied {
        if k in ops {
          AbandonReaches(cfg, Sees(), k);
          ops := Without(ops, k);
        }
        return InternalError;
      }
      if reply == -1 {
        return NotFound;
      }
      answer := NoContent;
      if reply == 1 {
        ghost var done := keys.View();
        AheadKnown(was, done, id);
        Interfere(k, settle.alone, id);
        ghost var after := keys.View();
        AheadKnown(done, after, id);
        AheadTransitive(was, done, after, id);
        AheadSets(done, after, id);
        var published := Dissolve(settle, k, id, p);
        AheadTransitive(was, after, keys.View(), id);
        AheadSets(after, keys.View(), id);
      }
    }

    lemma DeclineIsScript(s: Sys, k: nat, id: MatchID, p: string)
      requires k !in s.ops
      ensures var t, reply := DoDecline(s, k, id, p), DeclineReply(s.db, id, p);
        && t.worker == s.worker && t.hist == s.hist && t.db == Scripts.Decline(s.db, id, p)
        && t.ops == (if reply == 1 then s.ops[k := Dissolving(id, p)] else s.ops)
        && (reply == -1 <==> !IsForming(s.db, id))
        && (reply == 0 <==> IsForming(s.db, id) && p in Lookup(s.db.declined, id))
        && (reply == 1 <==> IsForming(s.db, id) && p !in Lookup(s.db.declined, id))
        && (reply != -1 ==> p in Lookup(t.db.declined, id))
        && t.db.records == s.db.records
    {
    }
  }
}

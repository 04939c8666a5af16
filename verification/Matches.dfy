/** The life of a match: requests that read its record early behave as if they had read
    it late, a match is settled once, and confirming needs enough acceptors. */
module Matches {
  import opened Model
  import opened Scripts
  import opened Grouping
  import opened Protocol
  import opened Conservation

  // ---- what a step may do to a match ------------------------------------------------

  /** Once committed a match keeps its players, entries and shard, and a settled status
      is final; only a confirm or a dissolve settles it. */
  ghost predicate Follows(s: Sys, t: Sys, a: Action, id: MatchID)
    requires id in s.db.records && id in s.db.status
  {
    && id in t.db.records && id in t.db.status && SameMatch(t.db.records[id], s.db.records[id])
    && (s.db.status[id] != Forming ==> t.db.status[id] == s.db.status[id])
    && (t.db.status[id] != s.db.status[id] ==>
          (a.ConfirmStep? && t.db.status[id] == Confirmed) || (a.DissolveStep? && t.db.status[id] == Dissolved))
  }

  lemma MatchFollows(cfg: Config, s: Sys, a: Action, id: MatchID)
    requires Inv(cfg, s) && Enabled(cfg, s, a) && id in s.db.records && id in s.db.status
    ensures Follows(s, Apply(cfg, s, a), a, id)
  {
    hide DoTryCommit, Follows, Scored, Placed, Holding;
    if a.TryCommit? {
      FreshMatch(cfg, s, a.now);
      CommitFollows(cfg, s, a.now, a.fate, id);
    } else if a.ConfirmStep? || a.DissolveStep? {
      SettleFollows(cfg, s, a, id);
    } else {
      RecordsFrame(cfg, s, a);
      UndisturbedFollows(s, Apply(cfg, s, a), a, id);
    }
  }

  lemma UndisturbedFollows(s: Sys, t: Sys, a: Action, id: MatchID)
    requires id in s.db.records && id in s.db.status && Undisturbed(s, t)
    ensures Follows(s, t, a, id)
  {
  }

  lemma CommitFollows(cfg: Config, s: Sys, now: int, fate: Fate, id: MatchID)
    requires cfg.n >= 1 && Enabled(cfg, s, TryCommit(now, fate)) && id in s.db.records && id in s.db.status
    requires NewMatch(cfg, s.worker.pc.group, now, s.worker.seqNo + 1).id !in s.db.records
    ensures Follows(s, DoTryCommit(cfg, s, now, fate), TryCommit(now, fate), id)
  {
  }

  lemma SettleKeeps(db: Db, settled: MatchID, to: Status, id: MatchID)
    requires id in db.records && id in db.status
    ensures var u := Settle(db, settled, to);
      && id in u.records && id in u.status && SameMatch(u.records[id], db.records[id])
      && u.status[id] == if id == settled then to else db.status[id]
  {
  }

  lemma SettleFollows(cfg: Config, s: Sys, a: Action, id: MatchID)
    requires cfg.n >= 1 && Enabled(cfg, s, a) && id in s.db.records && id in s.db.status
    requires a.ConfirmStep? || a.DissolveStep?
    ensures Follows(s, Apply(cfg, s, a), a, id)
  {
    hide Kept, Requeue, Settle;
    match a
    case ConfirmStep(k) =>
      SettleKeeps(s.db, s.ops[k].id, Confirmed, id);
      assert Follows(s, DoConfirm(s, k), a, id);
    case DissolveStep(k) =>
      SettleKeeps(s.db, s.ops[k].id, Dissolved, id);
      assert Follows(s, DoDissolve(s, k), a, id);
  }

  lemma RecordsFrame(cfg: Config, s: Sys, a: Action)
    requires cfg.n >= 1 && Enabled(cfg, s, a) && !a.TryCommit? && !a.ConfirmStep? && !a.DissolveStep?
    ensures Undisturbed(s, Apply(cfg, s, a))
  {
    if Opens(a) {
      OpenFrame(cfg, s, a);
    } else if Quiet(a) {
      ServeFrame(cfg, s, a);
    } else if ByWorker(a) && !a.Start? {
      WorkerQuiet(cfg, s, a);
    }
  }

  lemma OnlyCommitAdds(cfg: Config, s: Sys, a: Action)
    requires Inv(cfg, s) && Enabled(cfg, s, a) && !a.TryCommit?
    ensures Apply(cfg, s, a).db.records.Keys == s.db.records.Keys
  {
    if !a.ConfirmStep? && !a.DissolveStep? {
      RecordsFrame(cfg, s, a);
    }
  }

  lemma RunFollows(cfg: Config, trace: seq<Sys>, acts: seq<Action>, i: nat, id: MatchID)
    requires IsRun(cfg, trace, acts) && trace[0] == INITIAL && i < |acts|
    requires id in trace[i].db.records && id in trace[i].db.status
    ensures Follows(trace[i], trace[i + 1], acts[i], id)
  {
    InvInitially(cfg);
    InvRun(cfg, trace, acts, i);
    MatchFollows(cfg, trace[i], acts[i], id);
  }

  lemma HasStatus(cfg: Config, trace: seq<Sys>, acts: seq<Action>, i: nat, id: MatchID)
    requires IsRun(cfg, trace, acts) && trace[0] == INITIAL && i <= |acts|
    ensures id in trace[i].db.records ==> id in trace[i].db.status
  {
    InvInitially(cfg);
    InvRun(cfg, trace, acts, i);
  }

  ghost predicate Known(s: Sys, id: MatchID) {
    id in s.db.records && id in s.db.status
  }

  /** t has the same match as s, and the same status if s had a final one. */
  ghost predicate Extends(s: Sys, t: Sys, id: MatchID)
    requires Known(s, id)
  {
    && Known(t, id) && SameMatch(t.db.records[id], s.db.records[id])
    && (s.db.status[id] != Forming ==> t.db.status[id] == s.db.status[id])
  }

  lemma {:induction false} ExtendsAlong(trace: seq<Sys>, i: nat, j: nat, id: MatchID)
    requires i <= j < |trace| && Known(trace[i], id)
    requires forall k :: i <= k < j && Known(trace[k], id) ==> Extends(trace[k], trace[k + 1], id)
    ensures Extends(trace[i], trace[j], id)
    decreases j
  {
    if i < j {
      ExtendsAlong(trace, i, j - 1, id);
    }
  }

  /** Over every run: what a match is never changes, and what it became stays. */
  lemma MatchesAreFinal(cfg: Config, trace: seq<Sys>, acts: seq<Action>, i: nat, j: nat, id: MatchID)
    requires IsRun(cfg, trace, acts) && trace[0] == INITIAL && i <= j <= |acts|
    requires id in trace[i].db.records
    ensures Known(trace[i], id) && Extends(trace[i], trace[j], id)
  {
    HasStatus(cfg, trace, acts, i, id);
    forall k | i <= k < j && Known(trace[k], id)
      ensures Extends(trace[k], trace[k + 1], id)
    {
      RunFollows(cfg, trace, acts, k, id);
    }
    ExtendsAlong(trace, i, j, id);
  }

  /** In every reachable state the status key, the record's status and membership of the
      forming set agree, and the forming score is the formation instant. */
  lemma StatusAgrees(cfg: Config, s: Sys, id: MatchID)
    requires Reachable(cfg, s)
    ensures id in s.db.status <==> id in s.db.records
    ensures id in s.db.records ==> s.db.records[id].status == s.db.status[id]
    ensures id in s.db.forming <==> id in s.db.status && s.db.status[id] == Forming
    ensures id in s.db.forming ==> s.db.forming[id] == UnixMilli(s.db.records[id].formedAt)
  {
    InvReachable(cfg, s);
    if id in s.db.records {
      assert GoodRecord(cfg, s, id);
    }
  }

  /** A stored match is made of n entries of its own shard; player number i is the player of
      entry number i. */
  lemma RecordShape(cfg: Config, s: Sys, id: MatchID)
    requires Reachable(cfg, s) && id in s.db.records
    ensures var rec := s.db.records[id];
      && rec.id == id && rec.shard == id.shard == cfg.shard
      && |rec.playerIDs| == |rec.entries| == cfg.n
      && forall i :: 0 <= i < cfg.n ==> rec.playerIDs[i] == rec.entries[i].playerID
  {
    InvReachable(cfg, s);
    assert GoodRecord(cfg, s, id);
  }

  // ---- two phases are as good as one ---------------------------------------------------

  /** Dissolve as one step that reads the record inside the script. */
  function DissolveAtOnce(db: Db, id: MatchID, declined: string): Db
    requires id in db.records
  {
    Dissolve(db, id, declined, db.records[id].entries)
  }

  /** However stale the record that a request carries, its script acts as if the record
      were read at that instant, and on the keys of the right shard. */
  lemma TwoPhaseDissolve(cfg: Config, s: Sys, k: nat)
    requires Reachable(cfg, s) && Enabled(cfg, s, DissolveStep(k))
    ensures var op := s.ops[k];
      && op.id in s.db.records && op.rec.shard == cfg.shard && op.rec.id == op.id
      && op.rec.playerIDs == s.db.records[op.id].playerIDs
      && Apply(cfg, s, DissolveStep(k)).db == DissolveAtOnce(s.db, op.id, op.declined)
  {
    InvReachable(cfg, s);
    assert GoodOp(s, s.ops[k]);
    assert GoodRecord(cfg, s, s.ops[k].id);
  }

  lemma TwoPhaseConfirm(cfg: Config, s: Sys, k: nat)
    requires Reachable(cfg, s) && Enabled(cfg, s, ConfirmStep(k))
    ensures var op := s.ops[k];
      && op.id in s.db.records && op.rec.shard == cfg.shard && op.rec.id == op.id
      && op.rec.playerIDs == s.db.records[op.id].playerIDs
      && op.rec.entries == s.db.records[op.id].entries
  {
    InvReachable(cfg, s);
    assert GoodOp(s, s.ops[k]);
    assert GoodRecord(cfg, s, s.ops[k].id);
  }

  // ---- settling once, and the acceptance threshold -----------------------------------------

  ghost function Acceptors(s: Sys, id: MatchID): set<string> {
    Lookup(s.db.accepted, id)
  }

  ghost predicate Counted(cfg: Config, s: Sys, id: MatchID) {
    && s.hist.full[id] == (if |Acceptors(s, id)| >= cfg.n then 1 else 0)
    && s.hist.settled[id] == (if id in s.db.status && s.db.status[id] != Forming then 1 else 0)
    && (id !in s.db.status ==> Acceptors(s, id) == {})
    && (id in s.db.status && s.db.status[id] == Confirmed ==> |Acceptors(s, id)| >= cfg.n)
  }

  ghost predicate Settling(cfg: Config, s: Sys) {
    && (forall id :: Counted(cfg, s, id))
    && (forall k :: k in s.ops && Claims(s.ops[k]) ==> |Acceptors(s, s.ops[k].id)| >= cfg.n)
  }

  /** Steps other than accepting, confirming, dissolving and committing. */
  predicate Plain(a: Action) {
    !a.AcceptStep? && !a.ConfirmStep? && !a.DissolveStep? && !a.TryCommit?
  }

  ghost predicate SameTally(s: Sys, t: Sys) {
    && t.db.accepted == s.db.accepted && t.db.status == s.db.status
    && t.hist.full == s.hist.full && t.hist.settled == s.hist.settled
  }

  predicate Claims(op: Op) {
    op.Confirming? || op.ConfirmRead?
  }

  ghost predicate NoNewClaims(s: Sys, t: Sys) {
    forall k :: k in t.ops && Claims(t.ops[k]) ==> k in s.ops && Claims(s.ops[k]) && s.ops[k].id == t.ops[k].id
  }

  lemma OpenTally(cfg: Config, s: Sys, a: Action)
    requires cfg.n >= 1 && Enabled(cfg, s, a) && Opens(a)
    ensures SameTally(s, Apply(cfg, s, a)) && NoNewClaims(s, Apply(cfg, s, a))
  {
    hide PopMin, Parse, Flagged, CommitAllowed, MembersOf, UnixMilli;
    OpenFrame(cfg, s, a);
  }

  lemma ServeTally(cfg: Config, s: Sys, a: Action)
    requires cfg.n >= 1 && Enabled(cfg, s, a) && Plain(a) && !ByWorker(a) && !Opens(a)
    ensures SameTally(s, Apply(cfg, s, a)) && NoNewClaims(s, Apply(cfg, s, a))
  {
    hide PopMin, Parse, Flagged, CommitAllowed, MembersOf, UnixMilli;
    if Quiet(a) {
      ServeFrame(cfg, s, a);
    }
  }

  lemma PlainFrame(cfg: Config, s: Sys, a: Action)
    requires cfg.n >= 1 && Enabled(cfg, s, a) && Plain(a)
    ensures SameTally(s, Apply(cfg, s, a)) && NoNewClaims(s, Apply(cfg, s, a))
  {
    if ByWorker(a) {
      WorkerFrame(cfg, s, a);
    } else if Opens(a) {
      OpenTally(cfg, s, a);
    } else {
      ServeTally(cfg, s, a);
    }
  }

  lemma PlainSettling(cfg: Config, s: Sys, t: Sys)
    requires Settling(cfg, s) && SameTally(s, t) && NoNewClaims(s, t)
    ensures Settling(cfg, t)
  {
    assert forall id :: Counted(cfg, s, id) ==> Counted(cfg, t, id);
  }

  lemma NeedIsSize(cfg: Config, s: Sys, k: nat)
    requires Inv(cfg, s) && k in s.ops && s.ops[k].Accepting?
    ensures s.ops[k].need == cfg.n
  {
    assert GoodOp(s, s.ops[k]) && GoodRecord(cfg, s, s.ops[k].id);
  }

  lemma SettlingStep(cfg: Config, s: Sys, a: Action)
    requires Inv(cfg, s) && Settling(cfg, s) && Enabled(cfg, s, a)
    ensures Settling(cfg, Apply(cfg, s, a))
  {
    hide Scored, Placed, Holding, Numbered, Sized, Settling, DoAccept, DoConfirm, DoDissolve, DoTryCommit;
    if Plain(a) {
      PlainFrame(cfg, s, a);
      PlainSettling(cfg, s, Apply(cfg, s, a));
    } else {
      match a
      case AcceptStep(k) =>
        NeedIsSize(cfg, s, k);
        AcceptSettling(cfg, s, k);
      case ConfirmStep(k) => ConfirmSettling(cfg, s, k);
      case DissolveStep(k) => DissolveSettling(cfg, s, k);
      case TryCommit(now, fate) => CommitSettling(cfg, s, now, fate);
    }
  }

  lemma AcceptSettling(cfg: Config, s: Sys, k: nat)
    requires Settling(cfg, s) && k in s.ops && s.ops[k].Accepting? && s.ops[k].need == cfg.n >= 1
    ensures Settling(cfg, DoAccept(s, k))
  {
    var t, id := DoAccept(s, k), s.ops[k].id;
    AcceptCounts(cfg, s, k);
    forall i
      ensures Counted(cfg, t, i) && |Acceptors(t, i)| >= |Acceptors(s, i)|
    {
      assert Counted(cfg, s, i);
    }
  }

  /** The replies count up one by one, so the full count is seen once. */
  lemma AcceptCounts(cfg: Config, s: Sys, k: nat)
    requires k in s.ops && s.ops[k].Accepting? && s.ops[k].need == cfg.n >= 1 && Counted(cfg, s, s.ops[k].id)
    ensures Counted(cfg, DoAccept(s, k), s.ops[k].id)
    ensures |Acceptors(DoAccept(s, k), s.ops[k].id)| >= |Acceptors(s, s.ops[k].id)|
  {
    var Accepting(id, p, need) := s.ops[k];
    if AcceptReply(s.db, id, p) >= 0 {
      assert Acceptors(DoAccept(s, k), id) == Acceptors(s, id) + {p};
      assert p !in Acceptors(s, id);
    }
  }

  lemma ConfirmSettling(cfg: Config, s: Sys, k: nat)
    requires Settling(cfg, s) && k in s.ops && s.ops[k].ConfirmRead?
    ensures Settling(cfg, DoConfirm(s, k))
  {
    var t := DoConfirm(s, k);
    forall i
      ensures Counted(cfg, t, i)
    {
      assert Counted(cfg, s, i);
    }
  }

  lemma DissolveSettling(cfg: Config, s: Sys, k: nat)
    requires Settling(cfg, s) && k in s.ops && s.ops[k].DissolveRead?
    ensures Settling(cfg, DoDissolve(s, k))
  {
    var t := DoDissolve(s, k);
    forall i
      ensures Counted(cfg, t, i)
    {
      assert Counted(cfg, s, i);
    }
  }

  lemma NoStatusYet(cfg: Config, s: Sys, id: MatchID)
    requires Inv(cfg, s) && id !in s.db.records
    ensures id !in s.db.status
  {
  }

  lemma SameCounts(cfg: Config, s: Sys, t: Sys)
    requires Settling(cfg, s) && t.ops == s.ops && SameTally(s, t)
    ensures Settling(cfg, t)
  {
    assert forall i :: Counted(cfg, s, i) ==> Counted(cfg, t, i);
  }

  /** A new match has no acceptors yet. */
  lemma NewCounts(cfg: Config, s: Sys, t: Sys, id: MatchID)
    requires Settling(cfg, s) && t.ops == s.ops && cfg.n >= 1 && id !in s.db.status
    requires t.db.status == s.db.status[id := Forming] && t.db.accepted == s.db.accepted
    requires t.hist.full == s.hist.full && t.hist.settled == s.hist.settled
    ensures Settling(cfg, t)
  {
    forall i
      ensures Counted(cfg, t, i)
    {
      assert Counted(cfg, s, i);
    }
  }

  lemma CommitSettling(cfg: Config, s: Sys, now: int, fate: Fate)
    requires Inv(cfg, s) && Settling(cfg, s) && Enabled(cfg, s, TryCommit(now, fate))
    ensures Settling(cfg, DoTryCommit(cfg, s, now, fate))
  {
    hide Scored, Placed, Holding, Counted;
    var t := DoTryCommit(cfg, s, now, fate);
    FreshMatch(cfg, s, now);
    var rec := NewMatch(cfg, s.worker.pc.group, now, s.worker.seqNo + 1);
    NoStatusYet(cfg, s, rec.id);
    if t.db.status == s.db.status {
      SameCounts(cfg, s, t);
    } else {
      NewCounts(cfg, s, t, rec.id);
    }
  }

  lemma {:induction false} SettlingRun(cfg: Config, trace: seq<Sys>, acts: seq<Action>, i: nat)
    requires IsRun(cfg, trace, acts) && trace[0] == INITIAL && i <= |acts|
    ensures Settling(cfg, trace[i])
  {
    hide Apply, Enabled, Inv;
    InvInitially(cfg);
    if i > 0 {
      SettlingRun(cfg, trace, acts, i - 1);
      InvRun(cfg, trace, acts, i - 1);
      SettlingStep(cfg, trace[i - 1], acts[i - 1]);
    }
  }

  lemma SettlingReachable(cfg: Config, s: Sys)
    requires Reachable(cfg, s)
    ensures Settling(cfg, s)
  {
    var trace: seq<Sys>, acts: seq<Action> :|
      IsRun(cfg, trace, acts) && trace[0] == INITIAL && trace[|acts|] == s;
    SettlingRun(cfg, trace, acts, |acts|);
  }

  /** Of all confirm and dissolve calls for a match, however many and however interleaved,
      at most one ever returns 1; and at most one accept call ever sees the full count. */
  lemma SettledOnce(cfg: Config, s: Sys, id: MatchID)
    requires Reachable(cfg, s)
    ensures s.hist.settled[id] <= 1 && s.hist.full[id] <= 1
    ensures s.hist.settled[id] == 1 <==> id in s.db.status && s.db.status[id] != Forming
  {
    SettlingReachable(cfg, s);
    assert Counted(cfg, s, id);
  }

  /** A confirmed match has at least as many distinct acceptors as it has players. */
  lemma ConfirmedHasAcceptors(cfg: Config, s: Sys, id: MatchID)
    requires Reachable(cfg, s) && id in s.db.status && s.db.status[id] == Confirmed
    ensures id in s.db.records && |Acceptors(s, id)| >= |s.db.records[id].playerIDs|
  {
    InvReachable(cfg, s);
    SettlingReachable(cfg, s);
    assert Counted(cfg, s, id) && GoodRecord(cfg, s, id);
  }

  /** The script does not check who accepts. A confirmed match was accepted by exactly its
      own players if and only if nobody else accepted it, and then no player is in it twice. */
  lemma ConfirmedByPlayersIff(cfg: Config, s: Sys, id: MatchID)
    requires Reachable(cfg, s) && id in s.db.status && s.db.status[id] == Confirmed
    ensures id in s.db.records
    ensures var players := s.db.records[id].playerIDs;
      && (Elements(players) == Acceptors(s, id) <==> Acceptors(s, id) <= Elements(players))
      && (Acceptors(s, id) <= Elements(players) ==> forall i, j :: 0 <= i < j < |players| ==> players[i] != players[j])
  {
    ConfirmedHasAcceptors(cfg, s, id);
    var players := s.db.records[id].playerIDs;
    if Acceptors(s, id) <= Elements(players) {
      SubsetSize(Acceptors(s, id), Elements(players));
      FullSetIsDistinct(players);
    }
  }

  lemma {:induction false} FullSetIsDistinct(xs: seq<string>)
    ensures |Elements(xs)| <= |xs|
    ensures |Elements(xs)| == |xs| ==> forall i, j :: 0 <= i < j < |xs| ==> xs[i] != xs[j]
  {
    if xs != [] {
      var front, last := xs[..|xs| - 1], xs[|xs| - 1];
      FullSetIsDistinct(front);
      assert Elements(xs) == Elements(front) + {last};
      if |Elements(xs)| == |xs| {
        assert last !in Elements(front);
      }
    }
  }

  lemma {:induction false} SubsetSize(a: set<string>, b: set<string>)
    requires a <= b
    ensures |a| <= |b|
    ensures |a| == |b| ==> a == b
  {
    if a != {} {
      var x :| x in a;
      SubsetSize(a - {x}, b - {x});
    }
  }

  /** While a match forms its acceptors only grow, and afterwards they are frozen. */
  lemma AcceptorsGrowThenFreeze(cfg: Config, s: Sys, a: Action, id: MatchID)
    requires Inv(cfg, s) && Enabled(cfg, s, a)
    ensures Acceptors(s, id) <= Acceptors(Apply(cfg, s, a), id)
    ensures Acceptors(s, id) != Acceptors(Apply(cfg, s, a), id) ==> IsForming(s.db, id) && a.AcceptStep?
  {
    if Plain(a) {
      PlainFrame(cfg, s, a);
    } else if a.AcceptStep? {
      AcceptGrows(s, a.k, id);
    }
  }

  lemma AcceptGrows(s: Sys, k: nat, id: MatchID)
    requires k in s.ops && s.ops[k].Accepting?
    ensures Acceptors(s, id) <= Acceptors(DoAccept(s, k), id)
    ensures Acceptors(s, id) != Acceptors(DoAccept(s, k), id) ==> IsForming(s.db, id)
  {
  }

  // ---- the one step that settles ----------------------------------------------------------

  /** The script of a confirm or a dissolve finds the match forming and replies 1. */
  ghost predicate SettlesIt(s: Sys, a: Action, id: MatchID) {
    && (a.ConfirmStep? || a.DissolveStep?) && a.k in s.ops && s.ops[a.k].id == id
    && (a.ConfirmStep? ==> s.ops[a.k].ConfirmRead?) && (a.DissolveStep? ==> s.ops[a.k].DissolveRead?)
    && IsForming(s.db, id)
  }

  lemma NotSettling(s: Sys, a: Action, id: MatchID)
    requires !a.ConfirmStep? && !a.DissolveStep?
    ensures !SettlesIt(s, a, id)
  {
  }

  lemma ScriptSettles(cfg: Config, s: Sys, a: Action, id: MatchID)
    requires cfg.n >= 1 && Enabled(cfg, s, a) && (a.ConfirmStep? || a.DissolveStep?)
    ensures var t := Apply(cfg, s, a);
      && t.db.status.Keys == s.db.status.Keys
      && (IsForming(t.db, id) <==> IsForming(s.db, id) && !SettlesIt(s, a, id))
  {
    hide Kept, Requeue, Settle;
    match a
    case ConfirmStep(k) => SettleStatus(s.db, s.ops[k].id, Confirmed);
    case DissolveStep(k) => SettleStatus(s.db, s.ops[k].id, Dissolved);
  }

  lemma SettleStatus(db: Db, id: MatchID, to: Status)
    ensures Settle(db, id, to).status == db.status[id := to]
  {
  }

  lemma CommitForms(cfg: Config, s: Sys, now: int, fate: Fate, id: MatchID)
    requires cfg.n >= 1 && s.worker.Up? && s.worker.pc.Committing? && s.db.status.Keys == s.db.records.Keys
    requires NewMatch(cfg, s.worker.pc.group, now, s.worker.seqNo + 1).id !in s.db.records
    ensures var t := DoTryCommit(cfg, s, now, fate);
      && (id in s.db.status ==> id in t.db.status && t.db.status[id] == s.db.status[id])
      && (id !in s.db.status && id in t.db.status ==> IsForming(t.db, id))
  {
    hide CommitAllowed, PlayersOf, EntriesOf, MembersOf, UnixMilli, Into;
  }

  lemma SettlingIsAStep(cfg: Config, s: Sys, a: Action, id: MatchID)
    requires Inv(cfg, s) && Enabled(cfg, s, a)
    ensures SettlesIt(s, a, id) ==> id in Apply(cfg, s, a).db.status && !IsForming(Apply(cfg, s, a).db, id)
    ensures IsForming(s.db, id) && !IsForming(Apply(cfg, s, a).db, id) ==> SettlesIt(s, a, id)
    ensures id in s.db.status && !IsForming(s.db, id) ==> id in Apply(cfg, s, a).db.status && !IsForming(Apply(cfg, s, a).db, id)
    ensures id !in s.db.status && id in Apply(cfg, s, a).db.status ==> IsForming(Apply(cfg, s, a).db, id)
  {
    hide Kept, Requeue, Scored, Placed, Holding, SettlesIt, DoConfirm, DoDissolve, DoTryCommit;
    if a.ConfirmStep? || a.DissolveStep? {
      ScriptSettles(cfg, s, a, id);
      SettlingNeedsForming(s, a, id);
    } else if a.TryCommit? {
      FreshMatch(cfg, s, a.now);
      CommitForms(cfg, s, a.now, a.fate, id);
      NotSettling(s, a, id);
    } else {
      RecordsFrame(cfg, s, a);
      NotSettling(s, a, id);
    }
  }

  /** Exactly one step of a run settles a match that is settled in the end, and none one that
      is not: of all its confirm and dissolve calls, that one alone gets the reply 1, and
      publishes unless this reply is lost. */
  lemma {:induction false} SettledByOneStep(cfg: Config, trace: seq<Sys>, acts: seq<Action>, id: MatchID, n: nat)
    returns (i: nat)
    requires IsRun(cfg, trace, acts) && trace[0] == INITIAL && n <= |acts|
    ensures id in trace[n].db.status && !IsForming(trace[n].db, id) ==>
      i < n && SettlesIt(trace[i], acts[i], id) && forall j :: 0 <= j < n && SettlesIt(trace[j], acts[j], id) ==> j == i
    ensures id !in trace[n].db.status || IsForming(trace[n].db, id) ==>
      forall j :: 0 <= j < n ==> !SettlesIt(trace[j], acts[j], id)
  {
    hide Apply, Enabled, SettlesIt, Inv;
    i := 0;
    if n > 0 {
      i := SettledByOneStep(cfg, trace, acts, id, n - 1);
      InvInitially(cfg);
      InvRun(cfg, trace, acts, n - 1);
      SettlingIsAStep(cfg, trace[n - 1], acts[n - 1], id);
      SettlingNeedsForming(trace[n - 1], acts[n - 1], id);
      if SettlesIt(trace[n - 1], acts[n - 1], id) {
        i := n - 1;
      }
    }
  }

  lemma SettlingNeedsForming(s: Sys, a: Action, id: MatchID)
    ensures SettlesIt(s, a, id) ==> IsForming(s.db, id)
  {
  }

  // ---- who accepted ---------------------------------------------------------------------

  /** The step is an accept call of p for the match ... */
  ghost predicate AcceptBy(s: Sys, a: Action, id: MatchID, p: string) {
    a.AcceptStep? && a.k in s.ops && s.ops[a.k].Accepting? && s.ops[a.k].id == id && s.ops[a.k].player == p
  }

  /** ... that the script records. */
  ghost predicate Records(s: Sys, a: Action, id: MatchID, p: string) {
    AcceptBy(s, a, id, p) && AcceptReply(s.db, id, p) >= 0
  }

  lemma AcceptorStep(cfg: Config, s: Sys, a: Action, id: MatchID, p: string)
    requires cfg.n >= 1 && Enabled(cfg, s, a)
    ensures p in Acceptors(Apply(cfg, s, a), id) <==> p in Acceptors(s, id) || Records(s, a, id, p)
  {
    if Plain(a) {
      PlainFrame(cfg, s, a);
    } else if a.AcceptStep? {
      AcceptorAdded(s, a.k, id, p);
    }
  }

  lemma AcceptorAdded(s: Sys, k: nat, id: MatchID, p: string)
    requires k in s.ops && s.ops[k].Accepting?
    ensures p in Acceptors(DoAccept(s, k), id) <==> p in Acceptors(s, id) || Records(s, AcceptStep(k), id, p)
  {
  }

  lemma {:induction false} AcceptorsAre(cfg: Config, trace: seq<Sys>, acts: seq<Action>, id: MatchID, p: string, i: nat)
    requires IsRun(cfg, trace, acts) && trace[0] == INITIAL && i <= |acts|
    ensures p in Acceptors(trace[i], id) <==> exists j :: 0 <= j < i && Records(trace[j], acts[j], id, p)
  {
    hide Apply, Enabled, Acceptors, Records;
    if i == 0 {
      NobodyAccepted(id);
    } else {
      AcceptorsAre(cfg, trace, acts, id, p, i - 1);
      AcceptorStep(cfg, trace[i - 1], acts[i - 1], id, p);
    }
  }

  lemma NobodyAccepted(id: MatchID)
    ensures Acceptors(INITIAL, id) == {}
  {
  }

  /** Over every run: a confirmed match was accepted by exactly its own players if and only
      if every accept call for it that was recorded came from one of them; and that is so
      whenever every accept call came from a player in the record, which the handler has
      read before it calls the script. */
  lemma AcceptedByPlayersIff(cfg: Config, trace: seq<Sys>, acts: seq<Action>, id: MatchID)
    requires IsRun(cfg, trace, acts) && trace[0] == INITIAL
    requires id in trace[|acts|].db.status && trace[|acts|].db.status[id] == Confirmed
    ensures id in trace[|acts|].db.records
    ensures var players := Elements(trace[|acts|].db.records[id].playerIDs);
      && (Acceptors(trace[|acts|], id) == players
          <==> forall j, p :: 0 <= j < |acts| && Records(trace[j], acts[j], id, p) ==> p in players)
      && ((forall j, p :: 0 <= j < |acts| && AcceptBy(trace[j], acts[j], id, p) ==> p in players)
          ==> Acceptors(trace[|acts|], id) == players)
  {
    hide Apply, Enabled, Acceptors;
    var last := trace[|acts|];
    assert Reachable(cfg, last);
    ConfirmedByPlayersIff(cfg, last, id);
    var players := Elements(last.db.records[id].playerIDs);
    forall p
      ensures p in Acceptors(last, id) <==> exists j :: 0 <= j < |acts| && Records(trace[j], acts[j], id, p)
    {
      AcceptorsAre(cfg, trace, acts, id, p, |acts|);
    }
  }

  // ---- who declined -----------------------------------------------------------------------

  lemma DeclinedGrow(cfg: Config, s: Sys, a: Action, id: MatchID)
    requires cfg.n >= 1 && Enabled(cfg, s, a)
    ensures Lookup(s.db.declined, id) <= Lookup(Apply(cfg, s, a).db.declined, id)
  {
    hide PopMin, Parse, Flagged, Select, CommitAllowed, MembersOf, UnixMilli, Kept, Requeue;
    if ByWorker(a) && !a.TryCommit? {
      WorkerFrame(cfg, s, a);
    } else if Quiet(a) && !Opens(a) {
      ServeFrame(cfg, s, a);
    }
  }

  /** The decline script runs for p while the match forms. */
  ghost predicate Declines(s: Sys, a: Action, id: MatchID, p: string) {
    a.DeclineCall? && a.id == id && a.p == p && IsForming(s.db, id)
  }

  lemma DeclinerStep(cfg: Config, s: Sys, a: Action, id: MatchID, p: string)
    requires cfg.n >= 1 && Enabled(cfg, s, a)
    ensures p in Lookup(Apply(cfg, s, a).db.declined, id) <==> p in Lookup(s.db.declined, id) || Declines(s, a, id, p)
  {
    hide PopMin, Parse, Flagged, Select, CommitAllowed, MembersOf, UnixMilli, Kept, Requeue, DoDecline;
    if ByWorker(a) && !a.TryCommit? {
      WorkerFrame(cfg, s, a);
    } else if a.DeclineCall? {
      DeclinerAdded(s, a.k, a.id, a.p, id, p);
    } else if Opens(a) {
      OpenFrame(cfg, s, a);
    } else if Quiet(a) {
      ServeFrame(cfg, s, a);
    }
  }

  lemma DeclinerAdded(s: Sys, k: nat, declinedId: MatchID, decliner: string, id: MatchID, p: string)
    ensures p in Lookup(DoDecline(s, k, declinedId, decliner).db.declined, id)
      <==> p in Lookup(s.db.declined, id) || (declinedId == id && decliner == p && IsForming(s.db, id))
  {
  }

  /** Over every run the declined set of a match holds exactly those for whom a decline ran
      while it was forming. */
  lemma {:induction false} DeclinersAre(cfg: Config, trace: seq<Sys>, acts: seq<Action>, id: MatchID, p: string, i: nat)
    requires IsRun(cfg, trace, acts) && trace[0] == INITIAL && i <= |acts|
    ensures p in Lookup(trace[i].db.declined, id) <==> exists j :: 0 <= j < i && Declines(trace[j], acts[j], id, p)
  {
    hide Apply, Enabled, Lookup, Declines;
    if i == 0 {
      NobodyDeclined(id);
    } else {
      DeclinersAre(cfg, trace, acts, id, p, i - 1);
      DeclinerStep(cfg, trace[i - 1], acts[i - 1], id, p);
    }
  }

  lemma NobodyDeclined(id: MatchID)
    ensures Lookup(INITIAL.db.declined, id) == {}
  {
  }

  /** Who declined first stays out of the accepted set. */
  lemma {:induction false} DeclinerStaysOut(cfg: Config, trace: seq<Sys>, acts: seq<Action>, id: MatchID, p: string, i: nat, j: nat)
    requires IsRun(cfg, trace, acts) && i <= j <= |acts|
    requires p in Lookup(trace[i].db.declined, id) && p !in Acceptors(trace[i], id)
    ensures p in Lookup(trace[j].db.declined, id) && p !in Acceptors(trace[j], id)
    decreases j
  {
    hide Apply, Enabled, Acceptors;
    if i < j {
      DeclinerStaysOut(cfg, trace, acts, id, p, i, j - 1);
      DeclinedGrow(cfg, trace[j - 1], acts[j - 1], id);
      AcceptorStep(cfg, trace[j - 1], acts[j - 1], id, p);
    }
  }

  /** Declining is final although the decline script and the dissolve are two calls: a
      player who declined before accepting is never in a confirmed match, however the calls
      interleave and even if the dissolve is never sent, as long as only players of the
      match accept it. */
  lemma DeclinerNeverConfirmed(cfg: Config, trace: seq<Sys>, acts: seq<Action>, id: MatchID, p: string, i: nat)
    requires IsRun(cfg, trace, acts) && trace[0] == INITIAL && i <= |acts|
    requires p in Lookup(trace[i].db.declined, id) && p !in Acceptors(trace[i], id)
    requires id in trace[|acts|].db.records && p in trace[|acts|].db.records[id].playerIDs
    requires forall j, q :: 0 <= j < |acts| && Records(trace[j], acts[j], id, q) ==> q in trace[|acts|].db.records[id].playerIDs
    ensures id in trace[|acts|].db.status && trace[|acts|].db.status[id] != Confirmed
  {
    hide Apply, Enabled, Acceptors;
    HasStatus(cfg, trace, acts, |acts|, id);
    DeclinerStaysOut(cfg, trace, acts, id, p, i, |acts|);
    assert p in Elements(trace[|acts|].db.records[id].playerIDs);
    if trace[|acts|].db.status[id] == Confirmed {
      AcceptedByPlayersIff(cfg, trace, acts, id);
    }
  }
}

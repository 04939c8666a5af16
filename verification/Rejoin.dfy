/** The two conditions of the cancellation guarantee are needed: a player who joins again
    while cancelled, and a worker that restarts, each bring a cancelled entry into a match. */
module Rejoin {
  import opened Model
  import opened Scripts
  import opened Grouping
  import opened Protocol
  import opened World
  import opened Runs
  import opened Scenario

  // ---- joining again ------------------------------------------------------------------------

  const AGAIN := QueueEntry("ann", 1500, SECOND)

  predicate SameLifetime(a: Action) {
    !a.Start? && !a.Crash?
  }

  predicate InLifetime(a: Action) {
    SameLifetime(a) && Own(SHARD, a)
  }

  /** Ann cancels, joins again and Carl joins: the worker pops both, discards the new entry
      of Ann and clears her from the set, and commits her old entry with Carl. A history of
      the system in which Ann is cancelled at some instant, the worker lives from then on,
      and Ann is in a match formed later. */
  lemma RejoiningDefeatsCancel() returns (worlds: seq<Shards>, events: seq<Event>, first: nat, id: MatchID)
    ensures IsHistory(2, worlds, events) && first <= |events|
    ensures SHARD in worlds[first] && SHARD in worlds[|events|]
    ensures var s := worlds[first][SHARD]; s.worker.Up? && "ann" in s.db.cancelled && s.db.records == map[]
    ensures forall i :: first <= i < |events| ==> SameLifetime(ActionOf(events[i]))
    ensures var t := worlds[|events|][SHARD]; id in t.db.records && "ann" in t.db.records[id].playerIDs
  {
    hide Leads, IsHistory;
    var s := AnnCancels();
    LeadsNowhere(DUEL, s, InLifetime);
    Routed(AGAIN);
    Routed(CARL);
    var t := BothEnter(s, s, InLifetime, AGAIN, CARL);
    t := BothAreRead(s, t, InLifetime, AGAIN, CARL);
    t := AgainIsDiscarded(s, t);
    t := PairIsCommitted(s, t, InLifetime);
    id := PairMatch(1).id;
    assert PairMatch(1).playerIDs[0] == "ann";
    worlds, events, first := HistoryOf(2, SHARD, s, t, InLifetime);
  }

  /** Ann waits in the buffer when she cancels. */
  lemma AnnCancels() returns (s: Sys)
    ensures Leads(DUEL, INITIAL, s, OwnSteps(SHARD))
    ensures s.db == EMPTY_DB.(processing := map[Encoded(ANN) := 0], cancelled := {"ann"})
    ensures s.worker == Up(0, 0, [Waiter(ANN)], Idle) && s.hist.scores.Keys == {Encoded(ANN)}
  {
    hide Leads, Select, Flagged;
    var own := OwnSteps(SHARD);
    s := AnnIsPopped();
    OneKept(ANN, {});
    LeadsOn(DUEL, INITIAL, s, own, Check(false));
    s := DoCheck(s, false);
    assert s.worker == Up(0, 0, [Waiter(ANN)], Choosing);
    OneIsTooFew(ANN, 0);
    LeadsOn(DUEL, INITIAL, s, own, Choose(0));
    s := DoChoose(DUEL, s, 0);
    LeadsOn(DUEL, INITIAL, s, own, CancelPlayer("ann"));
    s := s.(db := Scripts.Cancel(s.db, "ann"));
  }

  lemma AnnIsPopped() returns (s: Sys)
    ensures Leads(DUEL, INITIAL, s, OwnSteps(SHARD))
    ensures s.db == EMPTY_DB.(processing := map[Encoded(ANN) := 0])
    ensures s.worker == Up(0, 0, [], Parsed([Waiter(ANN)])) && s.hist.scores.Keys == {Encoded(ANN)}
  {
    hide Leads, PopMin, Parse, Pop;
    s := AnnWaits();
    OneIsLeast(ANN);
    OneIsPopped(s.db, ANN);
    LeadsOn(DUEL, INITIAL, s, OwnSteps(SHARD), PopBatch([Encoded(ANN)], false));
    s := DoPop(s, [Encoded(ANN)], false);
  }

  lemma AnnWaits() returns (s: Sys)
    ensures Leads(DUEL, INITIAL, s, OwnSteps(SHARD))
    ensures s.db == EMPTY_DB.(queue := map[Encoded(ANN) := 0])
    ensures s.worker == Up(0, 0, [], Idle) && s.hist.scores.Keys == {Encoded(ANN)}
  {
    hide Leads;
    LeadsNowhere(DUEL, INITIAL, OwnSteps(SHARD));
    Routed(ANN);
    LeadsOn(DUEL, INITIAL, INITIAL, OwnSteps(SHARD), Join(ANN));
    s := Arrive(INITIAL, Encoded(ANN), 0);
    s := Restart(INITIAL, s, OwnSteps(SHARD), 0);
  }

  lemma AgainIsDiscarded(s: Sys, t: Sys) returns (u: Sys)
    requires Leads(DUEL, s, t, InLifetime) && t.db.cancelled == {"ann"}
    requires t.worker == Up(0, 0, [Waiter(ANN)], Parsed([Waiter(AGAIN), Waiter(CARL)]))
    ensures Leads(DUEL, s, u, InLifetime) && u.worker == Up(0, 0, PAIR, Choosing)
    ensures u.db == t.db.(cancelled := {}) && u.ops == t.ops
  {
    hide Leads, Flagged;
    TwoFlagged(AGAIN, CARL, {"ann"});
    LeadsOn(DUEL, s, t, InLifetime, Check(false));
    u := DoCheck(t, false);
    assert u.worker == Up(0, 0, PAIR, Clearing([Waiter(AGAIN)]));
    LeadsOn(DUEL, s, u, InLifetime, Clear(false));
    assert PlayerSet([Waiter(AGAIN)]) == {"ann"};
    u := DoClear(u, false);
  }

  // ---- restarting -----------------------------------------------------------------------------

  predicate NobodyJoins(a: Action) {
    !a.Join?
  }

  predicate OwnWithoutJoin(a: Action) {
    NobodyJoins(a) && Own(SHARD, a)
  }

  /** Ann is cancelled with one entry and nobody joins after that: the worker discards the
      entry, clears her from the set and restarts, and the next lifetime commits the entry
      with Carl's. */
  lemma RestartingDefeatsCancel() returns (worlds: seq<Shards>, events: seq<Event>, first: nat, id: MatchID)
    ensures IsHistory(2, worlds, events) && first <= |events|
    ensures SHARD in worlds[first] && SHARD in worlds[|events|]
    ensures var s := worlds[first][SHARD]; "ann" in s.db.cancelled && s.db.records == map[]
    ensures forall i :: first <= i < |events| ==> NobodyJoins(ActionOf(events[i]))
    ensures var t := worlds[|events|][SHARD]; id in t.db.records && "ann" in t.db.records[id].playerIDs
  {
    hide Leads, IsHistory, Drain;
    var s := BothWait();
    LeadsNowhere(DUEL, s, OwnWithoutJoin);
    var t := Restart(s, s, OwnWithoutJoin, 0);
    BackInQueue(s.db);
    t := BothAreRead(s, t, OwnWithoutJoin, ANN, CARL);
    t := AnnIsCleared(s, t);
    BackInQueue(t.db);
    t := Restart(s, t, OwnWithoutJoin, 1);
    t := BothAreRead(s, t, OwnWithoutJoin, ANN, CARL);
    t := BothAreKept(s, t, OwnWithoutJoin);
    t := PairIsCommitted(s, t, OwnWithoutJoin);
    id := PairMatch(1).id;
    assert PairMatch(1).playerIDs[0] == "ann";
    worlds, events, first := HistoryOf(2, SHARD, s, t, OwnWithoutJoin);
  }

  lemma BothWait() returns (s: Sys)
    ensures Leads(DUEL, INITIAL, s, OwnSteps(SHARD))
    ensures s.db == EMPTY_DB.(queue := QueueOf(ANN, CARL), cancelled := {"ann"})
  {
    hide Leads;
    LeadsNowhere(DUEL, INITIAL, OwnSteps(SHARD));
    Routed(ANN);
    Routed(CARL);
    s := BothEnter(INITIAL, INITIAL, OwnSteps(SHARD), ANN, CARL);
    LeadsOn(DUEL, INITIAL, s, OwnSteps(SHARD), CancelPlayer("ann"));
    s := s.(db := Scripts.Cancel(s.db, "ann"));
  }

  lemma BackInQueue(db: Db)
    requires (db.queue == QueueOf(ANN, CARL) && db.processing == map[]) || (db.queue == map[] && db.processing == QueueOf(ANN, CARL))
    ensures Drain(db) == db.(queue := QueueOf(ANN, CARL), processing := map[])
  {
  }

  lemma AnnIsCleared(s: Sys, t: Sys) returns (u: Sys)
    requires Leads(DUEL, s, t, OwnWithoutJoin) && t.worker == Up(0, 0, [], Parsed(PAIR)) && t.db.cancelled == {"ann"}
    ensures Leads(DUEL, s, u, OwnWithoutJoin) && u.db == t.db.(cancelled := {})
  {
    hide Leads, Flagged;
    TwoFlagged(ANN, CARL, {"ann"});
    LeadsOn(DUEL, s, t, OwnWithoutJoin, Check(false));
    u := DoCheck(t, false);
    assert u.worker.pc == Clearing([Waiter(ANN)]);
    LeadsOn(DUEL, s, u, OwnWithoutJoin, Clear(false));
    assert PlayerSet([Waiter(ANN)]) == {"ann"};
    u := DoClear(u, false);
  }
}

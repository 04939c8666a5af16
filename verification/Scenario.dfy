/** A shard and a few players for the concrete runs of Starvation, Rejoin and Outsider, and
    the stretches of a run that they share. */
module Scenario {
  import opened Model
  import opened RatingBand
  import opened Scripts
  import opened Grouping
  import opened Protocol
  import opened World
  import opened Runs

  const SHARD := Shard("eu", "duel", "1300-1600")
  const DUEL := Config(SHARD, 2)

  const ANN := QueueEntry("ann", 1500, 0)
  const CARL := QueueEntry("carl", 1500, 2 * SECOND)

  /** The joins of these runs are routed to the shard. */
  lemma Routed(e: QueueEntry)
    requires 1300 <= e.rating < 1600
    ensures Target("eu", "duel", e) == SHARD && Own(SHARD, Join(e))
  {
    assert Lower(e.rating) == 1300 && Upper(e.rating) == 1600;
    assert Decimal(1) == "1" && Decimal(13) == "13" && Decimal(130) == "130" && Decimal(1300) == "1300";
    assert Decimal(16) == "16" && Decimal(160) == "160" && Decimal(1600) == "1600";
  }

  function Waiter(e: QueueEntry): Buffered {
    Buffered(e, Encoded(e), UnixMilli(e.enqueuedAt))
  }

  // ---- one entry -----------------------------------------------------------------------

  lemma OneIsLeast(e: QueueEntry)
    ensures var queue := map[Encoded(e) := UnixMilli(e.enqueuedAt)];
      PopMin(queue, POP_BATCH_SIZE, [Encoded(e)]) && Parse([Encoded(e)], queue, 1) == [Waiter(e)]
  {
    var queue := map[Encoded(e) := UnixMilli(e.enqueuedAt)];
    assert queue.Keys == {Encoded(e)};
    assert |queue| == 1;
    assert Parse([Encoded(e)], queue, 0) == [];
  }

  lemma OneIsPopped(db: Db, e: QueueEntry)
    requires db.queue == map[Encoded(e) := UnixMilli(e.enqueuedAt)]
    ensures Pop(db, [Encoded(e)]) == db.(queue := map[], processing := db.processing + db.queue)
  {
    var members := Elements([Encoded(e)]);
    assert members == db.queue.Keys;
    assert (map m | m in members :: db.queue[m]) == db.queue;
  }

  lemma OneKept(e: QueueEntry, cancelled: set<string>)
    ensures Flagged([Waiter(e)], cancelled, false, 1) == if e.playerID in cancelled then [] else [Waiter(e)]
    ensures Flagged([Waiter(e)], cancelled, true, 1) == if e.playerID in cancelled then [Waiter(e)] else []
  {
    assert Flagged([Waiter(e)], cancelled, false, 0) == [];
    assert Flagged([Waiter(e)], cancelled, true, 0) == [];
  }

  lemma OneIsTooFew(e: QueueEntry, now: int)
    ensures Select([Waiter(e)], 2, now).NotFound?
  {
  }

  // ---- two entries ---------------------------------------------------------------------

  function QueueOf(d: QueueEntry, e: QueueEntry): map<Member, int> {
    map[Encoded(d) := UnixMilli(d.enqueuedAt), Encoded(e) := UnixMilli(e.enqueuedAt)]
  }

  lemma TwoAreLeast(d: QueueEntry, e: QueueEntry)
    requires d.enqueuedAt <= e.enqueuedAt && d != e
    ensures PopMin(QueueOf(d, e), POP_BATCH_SIZE, [Encoded(d), Encoded(e)])
    ensures Parse([Encoded(d), Encoded(e)], QueueOf(d, e), 2) == [Waiter(d), Waiter(e)]
  {
    assert QueueOf(d, e).Keys == {Encoded(d), Encoded(e)};
    assert |QueueOf(d, e)| == 2;
    assert Parse([Encoded(d), Encoded(e)], QueueOf(d, e), 0) == [];
    assert Parse([Encoded(d), Encoded(e)], QueueOf(d, e), 1) == [Waiter(d)];
  }

  lemma TwoArePopped(db: Db, d: QueueEntry, e: QueueEntry)
    requires db.queue == QueueOf(d, e)
    ensures Pop(db, [Encoded(d), Encoded(e)]) == db.(queue := map[], processing := db.processing + QueueOf(d, e))
  {
    var members := Elements([Encoded(d), Encoded(e)]);
    assert members == db.queue.Keys;
    assert (map m | m in members :: db.queue[m]) == db.queue;
  }

  lemma TwoFlagged(d: QueueEntry, e: QueueEntry, cancelled: set<string>)
    requires e.playerID !in cancelled
    ensures var cands := [Waiter(d), Waiter(e)];
      if d.playerID in cancelled
      then Flagged(cands, cancelled, false, 2) == [Waiter(e)] && Flagged(cands, cancelled, true, 2) == [Waiter(d)]
      else Flagged(cands, cancelled, false, 2) == cands && Flagged(cands, cancelled, true, 2) == []
  {
    var cands := [Waiter(d), Waiter(e)];
    assert cands[0] == Waiter(d) && cands[1] == Waiter(e);
    assert Flagged(cands, cancelled, true, 0) == [] && Flagged(cands, cancelled, false, 0) == [];
    assert Flagged(cands, cancelled, true, 1) == if d.playerID in cancelled then [cands[0]] else [];
    assert Flagged(cands, cancelled, false, 1) == if d.playerID in cancelled then [] else [cands[0]];
  }

  /** Both join an empty shard. */
  lemma BothEnter(s: Sys, t: Sys, allowed: Action -> bool, d: QueueEntry, e: QueueEntry) returns (u: Sys)
    requires Leads(DUEL, s, t, allowed) && allowed(Join(d)) && allowed(Join(e))
    requires t.db.queue == map[] && d != e && d.playerID != "" && e.playerID != ""
    requires Encoded(d) !in t.hist.scores && Encoded(e) !in t.hist.scores
    ensures Leads(DUEL, s, u, allowed) && u.db == t.db.(queue := QueueOf(d, e))
    ensures u.worker == t.worker && u.ops == t.ops
  {
    hide Leads;
    LeadsOn(DUEL, s, t, allowed, Join(d));
    u := Arrive(t, Encoded(d), UnixMilli(d.enqueuedAt));
    LeadsOn(DUEL, s, u, allowed, Join(e));
    u := Arrive(u, Encoded(e), UnixMilli(e.enqueuedAt));
  }

  /** A worker starts, or starts again. */
  lemma Restart(s: Sys, t: Sys, allowed: Action -> bool, millis: int) returns (u: Sys)
    requires Leads(DUEL, s, t, allowed) && allowed(Crash) && allowed(Start(millis)) && t.db.records == map[]
    ensures Leads(DUEL, s, u, allowed) && u.worker == Up(millis, 0, [], Idle)
    ensures u.db == Drain(t.db) && u.ops == t.ops && u.hist == t.hist
  {
    hide Leads;
    LeadsOn(DUEL, s, t, allowed, Crash);
    u := t.(worker := Down);
    LeadsOn(DUEL, s, u, allowed, Start(millis));
    u := u.(db := Drain(u.db), worker := Up(millis, 0, [], Idle));
  }

  /** The worker pops both. */
  lemma BothAreRead(s: Sys, t: Sys, allowed: Action -> bool, d: QueueEntry, e: QueueEntry) returns (u: Sys)
    requires Leads(DUEL, s, t, allowed) && allowed(PopBatch([Encoded(d), Encoded(e)], false))
    requires t.worker.Up? && t.worker.pc.Idle? && t.db.queue == QueueOf(d, e) && d.enqueuedAt <= e.enqueuedAt && d != e
    ensures Leads(DUEL, s, u, allowed) && u.worker == t.worker.(pc := Parsed([Waiter(d), Waiter(e)]))
    ensures u.db == t.db.(queue := map[], processing := t.db.processing + QueueOf(d, e)) && u.ops == t.ops
  {
    hide Leads, PopMin, Parse, Pop;
    TwoAreLeast(d, e);
    TwoArePopped(t.db, d, e);
    LeadsOn(DUEL, s, t, allowed, PopBatch([Encoded(d), Encoded(e)], false));
    u := DoPop(t, [Encoded(d), Encoded(e)], false);
  }

  /** From the start: both join, a worker starts and reads them. */
  lemma BothEnterAndAreRead(d: QueueEntry, e: QueueEntry) returns (s: Sys)
    requires 1300 <= d.rating < 1600 && 1300 <= e.rating < 1600
    requires d.enqueuedAt <= e.enqueuedAt && d != e && d.playerID != "" && e.playerID != ""
    ensures Leads(DUEL, INITIAL, s, OwnSteps(SHARD)) && s.ops == map[]
    ensures s.worker == Up(0, 0, [], Parsed([Waiter(d), Waiter(e)]))
    ensures s.db == EMPTY_DB.(processing := QueueOf(d, e))
  {
    hide Leads;
    s := BothAreQueued(d, e);
    s := BothAreRead(INITIAL, s, OwnSteps(SHARD), d, e);
  }

  lemma BothAreQueued(d: QueueEntry, e: QueueEntry) returns (s: Sys)
    requires 1300 <= d.rating < 1600 && 1300 <= e.rating < 1600
    requires d != e && d.playerID != "" && e.playerID != ""
    ensures Leads(DUEL, INITIAL, s, OwnSteps(SHARD)) && s.ops == map[]
    ensures s.worker == Up(0, 0, [], Idle) && s.db == EMPTY_DB.(queue := QueueOf(d, e))
  {
    hide Leads;
    LeadsNowhere(DUEL, INITIAL, OwnSteps(SHARD));
    Routed(d);
    Routed(e);
    s := BothEnter(INITIAL, INITIAL, OwnSteps(SHARD), d, e);
    s := Restart(INITIAL, s, OwnSteps(SHARD), 0);
  }

  const PAIR := [Waiter(ANN), Waiter(CARL)]

  lemma BothAreKept(s: Sys, t: Sys, allowed: Action -> bool) returns (u: Sys)
    requires Leads(DUEL, s, t, allowed) && allowed(Check(false))
    requires t.worker.Up? && t.worker.buffer == [] && t.worker.pc == Parsed(PAIR) && t.db.cancelled == {}
    ensures Leads(DUEL, s, u, allowed) && u.worker == t.worker.(buffer := PAIR, pc := Choosing)
    ensures u.db == t.db && u.ops == t.ops
  {
    hide Leads, Flagged;
    TwoFlagged(ANN, CARL, {});
    LeadsOn(DUEL, s, t, allowed, Check(false));
    u := DoCheck(t, false);
    assert [] + PAIR == PAIR;
  }

  function PairMatch(seqNo: nat): Match {
    NewMatch(DUEL, PAIR, 2 * SECOND, seqNo)
  }

  /** Ann and Carl are in the buffer, not cancelled: a match. */
  lemma PairIsCommitted(s: Sys, t: Sys, allowed: Action -> bool) returns (u: Sys)
    requires Leads(DUEL, s, t, allowed) && allowed(Choose(2 * SECOND)) && allowed(TryCommit(2 * SECOND, Replied))
    requires t.worker.Up? && t.worker.startMillis <= 2000 && t.worker.buffer == PAIR && t.worker.pc == Choosing
    requires t.db.cancelled == {}
    ensures Leads(DUEL, s, u, allowed)
    ensures var rec := PairMatch(t.worker.seqNo + 1);
      && u.db.records == t.db.records[rec.id := rec] && u.db.status == t.db.status[rec.id := Forming]
      && rec.playerIDs == ["ann", "carl"]
    ensures u.ops == t.ops && u.db.accepted == t.db.accepted && u.db.declined == t.db.declined
  {
    hide Leads, Select;
    PairIsNear();
    LeadsOn(DUEL, s, t, allowed, Choose(2 * SECOND));
    u := DoChoose(DUEL, t, 2 * SECOND);
    LeadsOn(DUEL, s, u, allowed, TryCommit(2 * SECOND, Replied));
    assert PairMatch(t.worker.seqNo + 1).playerIDs == ["ann", "carl"];
    u := DoTryCommit(DUEL, u, 2 * SECOND, Replied);
  }

  lemma PairIsNear()
    ensures Select(PAIR, 2, 2 * SECOND) == Found(PAIR, [])
  {
    var near := NearHead(PAIR, 2 * SECOND);
    assert near(Waiter(CARL));
    assert Group(near, 2, PAIR, 1) == [Waiter(ANN)] && Group(near, 2, PAIR, 2) == PAIR;
    assert Left(near, 2, PAIR, 1) == [] && Left(near, 2, PAIR, 2) == [];
  }
}

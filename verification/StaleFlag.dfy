/** A cancelled flag outlives its purpose: nothing but the discarding of an entry takes it
    away, so a player who cancels without waiting loses the next join; and a player who is
    not flagged at a join and does not cancel afterwards is never discarded. */
module StaleFlag {
  import opened Model
  import opened Scripts
  import opened Grouping
  import opened Protocol
  import opened Cancellation
  import opened World
  import opened Runs
  import opened Scenario

  // ---- the next join is lost ---------------------------------------------------------------

  predicate NobodyCancels(a: Action) {
    !a.CancelPlayer?
  }

  predicate OwnWithoutCancel(a: Action) {
    NobodyCancels(a) && Own(SHARD, a)
  }

  /** Ann cancels while she has no entry at all, and nobody cancels after that. She joins,
      and her entry is popped, discarded and left in processing: the flag is gone, the
      worker rests, and the entry is out of reach until the next worker starts. */
  lemma NextJoinIsLost() returns (worlds: seq<Shards>, events: seq<Event>, first: nat)
    ensures IsHistory(2, worlds, events) && first <= |events|
    ensures SHARD in worlds[first] && SHARD in worlds[|events|]
    ensures var s := worlds[first][SHARD]; "ann" in s.db.cancelled && forall m :: !OpenEntry(s, "ann", m)
    ensures forall i :: first <= i < |events| ==> NobodyCancels(ActionOf(events[i]))
    ensures var t := worlds[|events|][SHARD];
      && "ann" !in t.db.cancelled && OpenEntry(t, "ann", Encoded(ANN)) && Shelved(t, Encoded(ANN))
      && t.worker.Up? && t.worker.buffer == [] && t.worker.pc.Idle? && t.db.queue == map[]
  {
    hide Leads, IsHistory;
    LeadsNowhere(DUEL, INITIAL, OwnSteps(SHARD));
    LeadsOn(DUEL, INITIAL, INITIAL, OwnSteps(SHARD), CancelPlayer("ann"));
    var s := INITIAL.(db := Scripts.Cancel(INITIAL.db, "ann"));
    var t := AnnIsRead(s);
    t := AnnIsDiscarded(s, t);
    worlds, events, first := HistoryOf(2, SHARD, s, t, OwnWithoutCancel);
  }

  lemma AnnIsRead(s: Sys) returns (t: Sys)
    requires s == INITIAL.(db := Scripts.Cancel(INITIAL.db, "ann"))
    ensures Leads(DUEL, s, t, OwnWithoutCancel) && t.worker == Up(0, 0, [], Parsed([Waiter(ANN)]))
    ensures t.db == EMPTY_DB.(processing := map[Encoded(ANN) := 0], cancelled := {"ann"})
    ensures Encoded(ANN) in t.hist.place && t.hist.place[Encoded(ANN)] == Waiting
  {
    hide Leads, PopMin, Parse, Pop;
    t := AnnEnters(s);
    OneIsLeast(ANN);
    OneIsPopped(t.db, ANN);
    LeadsOn(DUEL, s, t, OwnWithoutCancel, PopBatch([Encoded(ANN)], false));
    t := DoPop(t, [Encoded(ANN)], false);
  }

  lemma AnnEnters(s: Sys) returns (t: Sys)
    requires s == INITIAL.(db := Scripts.Cancel(INITIAL.db, "ann"))
    ensures Leads(DUEL, s, t, OwnWithoutCancel) && t.worker == Up(0, 0, [], Idle)
    ensures t.db == EMPTY_DB.(queue := map[Encoded(ANN) := 0], cancelled := {"ann"})
    ensures Encoded(ANN) in t.hist.place && t.hist.place[Encoded(ANN)] == Waiting
  {
    hide Leads;
    LeadsNowhere(DUEL, s, OwnWithoutCancel);
    Routed(ANN);
    LeadsOn(DUEL, s, s, OwnWithoutCancel, Join(ANN));
    t := Arrive(s, Encoded(ANN), 0);
    t := Restart(s, t, OwnWithoutCancel, 0);
  }

  lemma AnnIsDiscarded(s: Sys, t: Sys) returns (u: Sys)
    requires Leads(DUEL, s, t, OwnWithoutCancel) && t.worker == Up(0, 0, [], Parsed([Waiter(ANN)]))
    requires t.db == EMPTY_DB.(processing := map[Encoded(ANN) := 0], cancelled := {"ann"})
    requires Encoded(ANN) in t.hist.place && t.hist.place[Encoded(ANN)] == Waiting
    ensures Leads(DUEL, s, u, OwnWithoutCancel) && u.worker == Up(0, 0, [], Idle) && u.hist == t.hist
    ensures u.db == t.db.(cancelled := {})
  {
    hide Leads, Flagged, Select;
    OneKept(ANN, {"ann"});
    LeadsOn(DUEL, s, t, OwnWithoutCancel, Check(false));
    u := DoCheck(t, false);
    assert u.worker == Up(0, 0, [], Clearing([Waiter(ANN)]));
    LeadsOn(DUEL, s, u, OwnWithoutCancel, Clear(false));
    assert PlayerSet([Waiter(ANN)]) == {"ann"};
    u := DoClear(u, false);
    NothingToSelect();
    LeadsOn(DUEL, s, u, OwnWithoutCancel, Choose(0));
    u := DoChoose(DUEL, u, 0);
  }

  lemma NothingToSelect()
    ensures Select([], 2, 0).NotFound?
  {
  }

  // ---- who is never discarded ----------------------------------------------------------------

  /** Over a whole pool a flag is set by a cancel of that player only. */
  lemma {:induction false} UnflaggedStays(n: nat, worlds: seq<Shards>, events: seq<Event>, p: string, first: nat, j: nat, t: Shard)
    requires IsHistory(n, worlds, events) && first <= j <= |events|
    requires forall k :: 0 <= k < |worlds| ==> t in worlds[k]
    requires p !in worlds[first][t].db.cancelled
    requires forall k :: first <= k < j && SamePool(t, ShardOf(events[k])) ==> ActionOf(events[k]) != CancelPlayer(p)
    ensures p !in worlds[j][t].db.cancelled
    decreases j
  {
    hide Apply, Enabled, Happen, Allowed;
    if first < j {
      UnflaggedStays(n, worlds, events, p, first, j - 1, t);
      PoolsAlwaysAgree(n, worlds, events, j - 1);
      UnflaggedStep(n, worlds[j - 1], events[j - 1], p, t);
    }
  }

  lemma UnflaggedStep(n: nat, w: Shards, ev: Event, p: string, t: Shard)
    requires n >= 1 && Allowed(n, w, ev) && t in w && PoolsAgree(w) && p !in w[t].db.cancelled
    requires SamePool(t, ShardOf(ev)) ==> ActionOf(ev) != CancelPlayer(p)
    ensures p !in Happen(n, w, ev)[t].db.cancelled
  {
    hide Apply, Enabled;
    var u := ShardOf(ev);
    if SamePool(t, u) {
      assert p !in w[u].db.cancelled;
      SetBySomebody(Config(u, n), w[u], ActionOf(ev), p);
    }
  }

  lemma SetBySomebody(cfg: Config, s: Sys, a: Action, p: string)
    requires cfg.n >= 1 && Enabled(cfg, s, a) && !a.OtherShards? && a != CancelPlayer(p)
    requires p !in s.db.cancelled
    ensures p !in Apply(cfg, s, a).db.cancelled
  {
    hide Apply, Enabled;
    if a.Clear? {
      ClearIsStep(cfg, s, a.failed);
    } else if a.CancelPlayer? {
      CancelSets(cfg, s, a.p);
    } else {
      CancelledFrame(cfg, s, a);
    }
  }

  lemma CancelSets(cfg: Config, s: Sys, p: string)
    requires cfg.n >= 1
    ensures Enabled(cfg, s, CancelPlayer(p)) && Apply(cfg, s, CancelPlayer(p)).db.cancelled == s.db.cancelled + {p}
  {
  }

  lemma {:induction false} UnflaggedKept(cands: seq<Buffered>, cancelled: set<string>, b: Buffered, i: nat)
    requires i <= |cands| && b in cands[..i] && b.entry.playerID !in cancelled
    ensures b in Flagged(cands, cancelled, false, i)
  {
    if b in cands[..i - 1] {
      UnflaggedKept(cands, cancelled, b, i - 1);
    } else {
      assert cands[i - 1] == b;
    }
  }

  /** A player who is not flagged when joining and for whom nobody in the region and mode
      cancels afterwards: whenever a check sees the entry, it goes to the buffer. */
  lemma UnflaggedIsBuffered(n: nat, worlds: seq<Shards>, events: seq<Event>, first: nat, j: nat, t: Shard, failed: bool, b: Buffered)
    requires IsHistory(n, worlds, events) && first < j < |events|
    requires forall k :: 0 <= k < |worlds| ==> t in worlds[k]
    requires events[first] == Enter(t.region, t.mode, b.entry) && ShardOf(events[first]) == t
    requires b.entry.playerID !in worlds[first][t].db.cancelled
    requires forall k :: first <= k < j && SamePool(t, ShardOf(events[k])) ==> ActionOf(events[k]) != CancelPlayer(b.entry.playerID)
    requires events[j] == On(t, Check(failed)) && worlds[j][t].worker.Up? && worlds[j][t].worker.pc.Parsed?
    requires b in worlds[j][t].worker.pc.cands
    ensures worlds[j + 1][t].worker.Up? && b in worlds[j + 1][t].worker.buffer
  {
    UnflaggedStays(n, worlds, events, b.entry.playerID, first, j, t);
    var s := worlds[j][t];
    var cands, cancelled := s.worker.pc.cands, if failed then {} else s.db.cancelled;
    assert cands[..|cands|] == cands;
    UnflaggedKept(cands, cancelled, b, |cands|);
    CheckBuffers(s, failed, b);
    assert worlds[j + 1] == Happen(n, worlds[j], events[j]);
  }

  lemma CheckBuffers(s: Sys, failed: bool, b: Buffered)
    requires s.worker.Up? && s.worker.pc.Parsed?
    requires b in Flagged(s.worker.pc.cands, if failed then {} else s.db.cancelled, false, |s.worker.pc.cands|)
    ensures DoCheck(s, failed).worker.Up? && b in DoCheck(s, failed).worker.buffer
  {
  }
}

/** Every match was formed inside its first player's window. */
module Spread {
  import opened Model
  import opened RatingBand
  import opened Grouping
  import opened Scripts
  import opened Protocol
  import opened Conservation
  import opened Matches

  /** Everyone lies in the first entry's window at the instant t. */
  ghost predicate InFirstWindow(entries: seq<QueueEntry>, t: int) {
    forall i :: 1 <= i < |entries| ==> Near(entries[0], entries[i], WindowAt(entries[0], t))
  }

  /** ... at the instant when the group was chosen, which was not after the formation. */
  ghost predicate WellFormed(s: Sys, id: MatchID)
    requires id in s.db.records
  {
    var rec := s.db.records[id];
    && id in s.hist.chosenAt && s.hist.chosenAt[id] <= rec.formedAt
    && InFirstWindow(rec.entries, s.hist.chosenAt[id])
  }

  ghost predicate Formed(s: Sys) {
    && (forall id :: id in s.db.records ==> WellFormed(s, id))
    && (s.worker.Up? && s.worker.pc.Committing? ==> InFirstWindow(EntriesOf(s.worker.pc.group), s.worker.pc.at))
  }

  lemma FormedStep(cfg: Config, s: Sys, a: Action)
    requires Inv(cfg, s) && Formed(s) && Enabled(cfg, s, a)
    ensures Formed(Apply(cfg, s, a))
  {
    if a.TryCommit? {
      CommitFormed(cfg, s, a.now, a.fate);
    } else if a.Choose? {
      ChooseFormed(cfg, s, a.now);
    } else if a.ConfirmStep? || a.DissolveStep? {
      SettleFormed(cfg, s, a);
    } else {
      RecordsFrame(cfg, s, a);
      CommittingFrame(cfg, s, a);
    }
  }

  lemma CommittingFrame(cfg: Config, s: Sys, a: Action)
    requires cfg.n >= 1 && Enabled(cfg, s, a) && !a.Choose?
    ensures var t := Apply(cfg, s, a);
      && (t.worker.Up? && t.worker.pc.Committing? ==> t.worker == s.worker)
      && (!a.TryCommit? ==> t.hist.chosenAt == s.hist.chosenAt)
  {
    hide PopMin, Parse, Flagged, Select, CommitAllowed, MembersOf, UnixMilli, Kept, Requeue;
    if ByWorker(a) && !a.TryCommit? {
      WorkerFrame(cfg, s, a);
    } else if Opens(a) {
      OpenFrame(cfg, s, a);
    } else if Quiet(a) {
      ServeFrame(cfg, s, a);
    }
  }

  lemma CommitFormed(cfg: Config, s: Sys, now: int, fate: Fate)
    requires Formed(s) && cfg.n >= 1 && Enabled(cfg, s, TryCommit(now, fate))
    ensures Formed(DoTryCommit(cfg, s, now, fate))
  {
    var rec := NewMatch(cfg, s.worker.pc.group, now, s.worker.seqNo + 1);
    assert InFirstWindow(rec.entries, s.worker.pc.at);
  }

  lemma ChooseFormed(cfg: Config, s: Sys, now: int)
    requires Formed(s) && cfg.n >= 1 && Enabled(cfg, s, Choose(now))
    ensures Formed(DoChoose(cfg, s, now))
  {
    var sel := Select(s.worker.buffer, cfg.n, now);
    if sel.Found? {
      SelectSound(s.worker.buffer, cfg.n, now);
      GroupWindow(sel.group, now);
    }
  }

  lemma GroupWindow(group: seq<Buffered>, now: int)
    requires forall i :: 1 <= i < |group| ==> Near(group[0].entry, group[i].entry, WindowAt(group[0].entry, now))
    ensures InFirstWindow(EntriesOf(group), now)
  {
  }

  lemma SettleFormed(cfg: Config, s: Sys, a: Action)
    requires Inv(cfg, s) && Formed(s) && Enabled(cfg, s, a) && (a.ConfirmStep? || a.DissolveStep?)
    ensures Formed(Apply(cfg, s, a))
  {
    var t := Apply(cfg, s, a);
    CommittingFrame(cfg, s, a);
    forall id | id in t.db.records
      ensures WellFormed(t, id)
    {
      assert GoodOp(s, s.ops[a.k]);
      assert id in s.db.records && WellFormed(s, id);
      assert GoodRecord(cfg, s, id);
      SettleFollows(cfg, s, a, id);
    }
  }

  lemma {:induction false} FormedRun(cfg: Config, trace: seq<Sys>, acts: seq<Action>, i: nat)
    requires IsRun(cfg, trace, acts) && trace[0] == INITIAL && i <= |acts|
    ensures Formed(trace[i])
  {
    hide Apply, Enabled, Inv;
    InvInitially(cfg);
    if i > 0 {
      FormedRun(cfg, trace, acts, i - 1);
      InvRun(cfg, trace, acts, i - 1);
      FormedStep(cfg, trace[i - 1], acts[i - 1]);
    }
  }

  /** In every reachable state the distance of anyone in a match from its first player is
      at most 300, and at most min(300, 50 + 5 * wait) for the whole seconds that the first
      player had waited when the group was chosen (and so also for those waited at the
      formation), if and only if it fits in 32 bits. Ratings of one sign always fit. A wait
      that is negative or overflows the window's 32 bits gives the bound of 300 only. */
  lemma MatchWithinWindow(cfg: Config, s: Sys, id: MatchID, i: nat)
    requires Reachable(cfg, s) && id in s.db.records
    requires 1 <= i < |s.db.records[id].entries|
    ensures id in s.hist.chosenAt && s.hist.chosenAt[id] <= s.db.records[id].formedAt
    ensures var rec := s.db.records[id];
      var first := rec.entries[0];
      var distance := Abs(rec.entries[i].rating as int - first.rating as int);
      var chosen, formed := WaitSecs(s.hist.chosenAt[id], first.enqueuedAt), WaitSecs(rec.formedAt, first.enqueuedAt);
      && (distance <= 300 <==> distance < 0x8000_0000)
      && (0 <= chosen <= LONGEST_EXACT_WAIT ==> (distance <= IdealWindow(chosen as int) <==> distance < 0x8000_0000))
      && (0 <= chosen <= formed ==> (distance <= IdealWindow(formed as int) <==> distance < 0x8000_0000))
  {
    hide Apply, Enabled, Inv;
    var trace: seq<Sys>, acts: seq<Action> :|
      IsRun(cfg, trace, acts) && trace[0] == INITIAL && trace[|acts|] == s;
    FormedRun(cfg, trace, acts, |acts|);
    var rec := s.db.records[id];
    assert WellFormed(s, id);
    if Abs(rec.entries[i].rating as int - rec.entries[0].rating as int) < 0x8000_0000 {
      NearMeansWithin(rec.entries[0], rec.entries[i], s.hist.chosenAt[id]);
    }
  }

  /** The same in instants and ratings: everyone in a match is in reach of its first player at
      the instant when the group was chosen; beyond 50 points that takes a fifth of a second
      a point. */
  lemma MatchInReach(cfg: Config, s: Sys, id: MatchID, i: nat)
    requires Reachable(cfg, s) && id in s.db.records && id in s.hist.chosenAt
    requires 1 <= i < |s.db.records[id].entries|
    requires Fits(s.db.records[id].entries[0], s.db.records[id].entries[i], s.hist.chosenAt[id])
    ensures var first, other, at := s.db.records[id].entries[0], s.db.records[id].entries[i], s.hist.chosenAt[id];
      var distance := Abs(other.rating as int - first.rating as int);
      && InReach(first, other, at)
      && (distance > 50 ==> (distance - 50) * 1_000_000_000 <= 5 * (at - first.enqueuedAt))
  {
    hide Apply, Enabled, Inv;
    var trace: seq<Sys>, acts: seq<Action> :|
      IsRun(cfg, trace, acts) && trace[0] == INITIAL && trace[|acts|] == s;
    FormedRun(cfg, trace, acts, |acts|);
    assert WellFormed(s, id);
    var first, other, at := s.db.records[id].entries[0], s.db.records[id].entries[i], s.hist.chosenAt[id];
    NearIsInReach(first, other, at);
    ReachTakesTime(first, other, at);
  }

  lemma ReachTakesTime(a: QueueEntry, b: QueueEntry, at: int)
    requires InReach(a, b, at)
    ensures var distance := Abs(b.rating as int - a.rating as int);
      distance > 50 ==> (distance - 50) * 1_000_000_000 <= 5 * (at - a.enqueuedAt)
  {
    var distance: int := Abs(b.rating as int - a.rating as int);
    if distance > 50 {
      var fifths := (distance - 46) / 5;
      assert distance - 50 <= 5 * fifths;
    }
  }

  lemma NearMeansWithin(first: QueueEntry, other: QueueEntry, t: int)
    requires Abs(other.rating as int - first.rating as int) < 0x8000_0000
    requires Near(first, other, WindowAt(first, t))
    ensures Abs(other.rating as int - first.rating as int) <= 300
    ensures 0 <= WaitSecs(t, first.enqueuedAt) <= LONGEST_EXACT_WAIT ==>
      Abs(other.rating as int - first.rating as int) <= IdealWindow(WaitSecs(t, first.enqueuedAt) as int)
  {
    DiffExactIff(other.rating, first.rating);
    if 0 <= WaitSecs(t, first.enqueuedAt) <= LONGEST_EXACT_WAIT {
      WindowExact(WaitSecs(t, first.enqueuedAt));
    }
  }

  /** A distance that does not fit: a player rated 0 and one with the least rating share
      the lowest band, and the wrapped distance is inside any window, so that selectGroup
      puts the two together at once. */
  lemma LeastRatingIsNearZero(a: Buffered, b: Buffered, now: int)
    requires a.entry.rating == 0 && b.entry.rating == -0x8000_0000
    ensures ComputeRatingBand(a.entry.rating) == ComputeRatingBand(b.entry.rating)
    ensures Abs(a.entry.rating as int - b.entry.rating as int) == 0x8000_0000
    ensures Select([a, b], 2, now) == Found([a, b], [])
  {
    var near := NearHead([a, b], now);
    assert Diff(b.entry.rating, a.entry.rating) == -0x8000_0000;
    assert near(b);
    assert Group(near, 2, [a, b], 1) == [a] && Group(near, 2, [a, b], 2) == [a, b];
    assert Left(near, 2, [a, b], 1) == [] && Left(near, 2, [a, b], 2) == [];
  }
}

/** A cancelled player is never committed again, wherever the entry was. */
module Cancellation {
  import opened Model
  import opened Scripts
  import opened Grouping
  import opened Protocol
  import opened Conservation
  import opened Matches

  /** m is an entry of player p that still counts: it waits, or its match is forming.
      Entries of confirmed matches and entries that a dissolve dropped do not come back. */
  ghost predicate OpenEntry(s: Sys, p: string, m: Member) {
    && m in s.hist.place && m.Encoded? && m.entry.playerID == p
    && (s.hist.place[m] == Waiting || (s.hist.place[m].InMatch? && IsForming(s.db, s.hist.place[m].id)))
  }

  ghost predicate Carries(w: Worker, m: Member) {
    w.Up? && exists b :: (b in w.buffer || b in InHand(w.pc)) && b.member == m
  }

  /** Left in processing: out of reach until the next worker drains it. */
  ghost predicate Shelved(s: Sys, m: Member) {
    m in s.db.processing && m !in s.db.queue && !Carries(s.worker, m)
  }

  /** An entry that may yet get into a match before the next worker starts. */
  ghost predicate Loose(s: Sys, p: string, m: Member) {
    OpenEntry(s, p, m) && !Shelved(s, m)
  }

  ghost predicate AtMostOneLoose(s: Sys, p: string) {
    forall m, m' :: Loose(s, p, m) && Loose(s, p, m') ==> m == m'
  }

  ghost predicate NoneLoose(s: Sys, p: string) {
    forall m :: !Loose(s, p, m)
  }

  /** The cancellation is still recorded, or it has done its work. */
  ghost predicate Held(s: Sys, p: string) {
    p in s.db.cancelled || NoneLoose(s, p)
  }

  predicate JoinOf(a: Action, p: string) {
    a.Join? && a.e.playerID == p
  }

  /** The steps that the guarantee speaks about: no new worker lifetime, no join of the
      player once the flag is gone, and workers of other bands clear the flag only when no
      entry here is loose (they clear it for an entry that they have discarded). */
  ghost predicate Within(s: Sys, a: Action, p: string) {
    && !a.Start?
    && (JoinOf(a, p) ==> p in s.db.cancelled)
    && (a.OtherShards? && p in s.db.cancelled && p !in a.cancelled ==> NoneLoose(s, p))
  }

  // ---- a shelved member stays shelved -------------------------------------------------

  lemma ShelvedStep(cfg: Config, s: Sys, a: Action, m: Member)
    requires Inv(cfg, s) && Enabled(cfg, s, a) && !a.Start?
    requires m in s.hist.scores && Shelved(s, m)
    ensures Shelved(Apply(cfg, s, a), m)
  {
    if Opens(a) {
      OpenFrame(cfg, s, a);
    } else if Quiet(a) {
      ServeFrame(cfg, s, a);
    } else if ByWorker(a) {
      WorkerShelved(cfg, s, a, m);
    } else if a.DissolveStep? {
      DissolveShelved(cfg, s, a.k, m);
    }
  }

  lemma DissolveShelved(cfg: Config, s: Sys, k: nat, m: Member)
    requires Placed(s) && Consistent(cfg, s) && k in s.ops && s.ops[k].DissolveRead?
    requires m in s.hist.scores && Shelved(s, m)
    ensures Shelved(DoDissolve(s, k), m)
  {
    var id := s.ops[k].id;
    assert GoodOp(s, s.ops[k]);
    assert !LiveIn(s, id, m);
  }

  lemma WorkerShelved(cfg: Config, s: Sys, a: Action, m: Member)
    requires Holding(s) && cfg.n >= 1 && Enabled(cfg, s, a) && ByWorker(a) && !a.Start?
    requires Shelved(s, m)
    ensures Shelved(Apply(cfg, s, a), m)
  {
    match a
    case PopBatch(batch, lost) => PopShelved(s, batch, lost, m);
    case Check(failed) => CheckShelved(s, failed, m);
    case Choose(now) => ChooseShelved(cfg, s, now, m);
    case TryCommit(now, fate) => GroupShelved(cfg, s, a, m);
    case RepushAdd => GroupShelved(cfg, s, a, m);
    case RepushRemove => GroupShelved(cfg, s, a, m);
    case _ => LetGoShelved(cfg, s, a, m);
  }

  lemma GroupShelved(cfg: Config, s: Sys, a: Action, m: Member)
    requires cfg.n >= 1 && Enabled(cfg, s, a) && (a.TryCommit? || a.RepushAdd? || a.RepushRemove?)
    requires Shelved(s, m)
    ensures Shelved(Apply(cfg, s, a), m)
  {
    GroupMembers(s.worker.pc.group);
    assert InHand(s.worker.pc) == s.worker.pc.group;
  }

  lemma LetGoShelved(cfg: Config, s: Sys, a: Action, m: Member)
    requires cfg.n >= 1 && Enabled(cfg, s, a) && (a.Crash? || a.Clear? || a.RepushFail?)
    requires Shelved(s, m)
    ensures Shelved(Apply(cfg, s, a), m)
  {
  }

  lemma PopShelved(s: Sys, batch: seq<Member>, lost: bool, m: Member)
    requires s.worker.Up? && s.worker.pc.Idle? && PopMin(s.db.queue, POP_BATCH_SIZE, batch) && Shelved(s, m)
    ensures Shelved(DoPop(s, batch, lost), m)
  {
    ParseSound(batch, s.db.queue, |batch|);
  }

  lemma CheckShelved(s: Sys, failed: bool, m: Member)
    requires Holding(s) && s.worker.Up? && s.worker.pc.Parsed? && Shelved(s, m)
    ensures Shelved(DoCheck(s, failed), m)
  {
    var cands, cancelled := s.worker.pc.cands, if failed then {} else s.db.cancelled;
    FlaggedSound(cands, cancelled, false, |cands|);
    FlaggedSound(cands, cancelled, true, |cands|);
  }

  lemma ChooseShelved(cfg: Config, s: Sys, now: int, m: Member)
    requires Holding(s) && cfg.n >= 1 && s.worker.Up? && s.worker.pc.Choosing? && Shelved(s, m)
    ensures Shelved(DoChoose(cfg, s, now), m)
  {
    var sel := Select(s.worker.buffer, cfg.n, now);
    if sel.Found? {
      SelectSound(s.worker.buffer, cfg.n, now);
      DistinctParts(s.worker.buffer, sel.group, sel.remaining);
    }
  }

  // ---- no entry gets loose ---------------------------------------------------------------

  /** An entry counts only if it counted before, or joins now. */
  lemma OpenStep(cfg: Config, s: Sys, a: Action, p: string, m: Member)
    requires Inv(cfg, s) && Enabled(cfg, s, a)
    requires OpenEntry(Apply(cfg, s, a), p, m)
    ensures OpenEntry(s, p, m) || (JoinOf(a, p) && m == Encoded(a.e) && m !in s.hist.scores)
  {
    hide PopMin, Parse, Flagged, Select, CommitAllowed, MembersOf, UnixMilli, Kept, Requeue;
    hide Scored, Placed, Holding, Consistent, Numbered, Sized;
    if a.TryCommit? {
      CommitOpens(cfg, s, a.now, a.fate, p, m);
    } else if ByWorker(a) {
      WorkerFrame(cfg, s, a);
    } else if Opens(a) {
      OpenFrame(cfg, s, a);
    } else if Quiet(a) {
      ServeFrame(cfg, s, a);
    } else if a.DissolveStep? {
      DissolveOpens(cfg, s, a.k, p, m);
    }
  }

  /** The members of a group in hand are waiting. */
  lemma GroupWaits(s: Sys, group: seq<Buffered>)
    requires Placed(s) && Holding(s) && s.worker.Up? && InHand(s.worker.pc) == group
    ensures forall m :: m in MembersOf(group) ==> m in s.hist.place && s.hist.place[m] == Waiting
  {
    GroupMembers(group);
  }

  lemma CommitShape(cfg: Config, s: Sys, now: int, fate: Fate)
    requires s.worker.Up? && s.worker.pc.Committing?
    ensures var t, group := DoTryCommit(cfg, s, now, fate), s.worker.pc.group;
      var id := NewMatch(cfg, group, now, s.worker.seqNo + 1).id;
      || (t.hist.place == s.hist.place && t.db.status == s.db.status)
      || (t.hist.place == s.hist.place + Into(Elements(MembersOf(group)), id) && t.db.status == s.db.status[id := Forming])
  {
    hide CommitAllowed, MembersOf, Elements, Into;
  }

  lemma OpenBefore(s: Sys, t: Sys, group: set<Member>, id: MatchID, p: string, m: Member)
    requires PlacedLive(s) && id !in s.db.records
    requires forall x :: x in group ==> x in s.hist.place && s.hist.place[x] == Waiting
    requires (t.hist.place == s.hist.place && t.db.status == s.db.status)
      || (t.hist.place == s.hist.place + Into(group, id) && t.db.status == s.db.status[id := Forming])
    requires OpenEntry(t, p, m)
    ensures OpenEntry(s, p, m)
  {
  }

  lemma CommitOpens(cfg: Config, s: Sys, now: int, fate: Fate, p: string, m: Member)
    requires Inv(cfg, s) && s.worker.Up? && s.worker.pc.Committing? && s.worker.startMillis <= UnixMilli(now)
    requires OpenEntry(DoTryCommit(cfg, s, now, fate), p, m)
    ensures OpenEntry(s, p, m)
  {
    hide UnixMilli, DoTryCommit, NewMatch, MembersOf, OpenEntry, Scored, PlacedWaiting, Holding, Consistent, Numbered, Sized;
    FreshMatch(cfg, s, now);
    GroupWaits(s, s.worker.pc.group);
    CommitShape(cfg, s, now, fate);
    OpenBefore(s, DoTryCommit(cfg, s, now, fate), Elements(MembersOf(s.worker.pc.group)),
      NewMatch(cfg, s.worker.pc.group, now, s.worker.seqNo + 1).id, p, m);

  }

  lemma DissolveOpens(cfg: Config, s: Sys, k: nat, p: string, m: Member)
    requires Inv(cfg, s) && k in s.ops && s.ops[k].DissolveRead?
    requires OpenEntry(DoDissolve(s, k), p, m)
    ensures OpenEntry(s, p, m)
  {
    var id := s.ops[k].id;
    assert GoodOp(s, s.ops[k]);
    if IsForming(s.db, id) && m.entry in s.ops[k].rec.entries {
      assert LiveIn(s, id, m);
    }
  }

  lemma LooseStep(cfg: Config, s: Sys, a: Action, p: string, m: Member)
    requires Inv(cfg, s) && Enabled(cfg, s, a) && !a.Start?
    requires Loose(Apply(cfg, s, a), p, m)
    ensures Loose(s, p, m) || (JoinOf(a, p) && m == Encoded(a.e))
  {
    hide Apply, Enabled, OpenEntry, Shelved;
    OpenStep(cfg, s, a, p, m);
    if OpenEntry(s, p, m) && Shelved(s, m) {
      OpenHasScore(s, p, m);
      ShelvedStep(cfg, s, a, m);
    }
  }

  lemma OpenHasScore(s: Sys, p: string, m: Member)
    requires Scored(s) && OpenEntry(s, p, m)
    ensures m in s.hist.scores
  {
  }

  // ---- the guarantee is kept -----------------------------------------------------------

  /** What the worker carries is loose. */
  lemma CarriedIsLoose(s: Sys, b: Buffered)
    requires Placed(s) && Holding(s) && s.worker.Up? && (b in s.worker.buffer || b in InHand(s.worker.pc))
    ensures b.member == Encoded(b.entry) && Loose(s, b.entry.playerID, b.member)
  {
    assert Genuine(s, b);
  }

  /** Clearing a player's flag leaves the discarded entry on the shelf. */
  lemma DiscardedIsShelved(s: Sys, failed: bool, b: Buffered)
    requires Holding(s) && s.worker.Up? && s.worker.pc.Clearing? && b in s.worker.pc.discarded
    ensures Shelved(DoClear(s, failed), b.member)
  {
    assert forall c :: c in s.worker.buffer && c.member == b.member ==> c == b;
  }

  lemma ClearHeld(cfg: Config, s: Sys, failed: bool, p: string)
    requires Inv(cfg, s) && Enabled(cfg, s, Clear(failed)) && s.worker.Up? && s.worker.pc.Clearing?
    requires p in s.db.cancelled && AtMostOneLoose(s, p)
    ensures Held(DoClear(s, failed), p)
  {
    InvHasSize(cfg, s);
    ClearIsStep(cfg, s, failed);
    hide Loose, Shelved, Apply, Enabled, Inv;
    var t := DoClear(s, failed);
    if p !in t.db.cancelled {
      var b := ClearedFor(cfg, s, failed, p);
      forall m
        ensures !Loose(t, p, m)
      {
        if Loose(t, p, m) {
          LooseStep(cfg, s, Clear(failed), p, m);
          LooseIsNotShelved(t, p, m);
        }
      }
    }
  }

  lemma ClearIsStep(cfg: Config, s: Sys, failed: bool)
    requires cfg.n >= 1 && Enabled(cfg, s, Clear(failed))
    ensures s.worker.Up? && s.worker.pc.Clearing? && Apply(cfg, s, Clear(failed)) == DoClear(s, failed)
  {
  }

  lemma LooseIsNotShelved(s: Sys, p: string, m: Member)
    ensures Loose(s, p, m) ==> !Shelved(s, m)
  {
  }

  /** A flag is cleared for a discarded entry. */
  lemma ClearedFor(cfg: Config, s: Sys, failed: bool, p: string) returns (b: Buffered)
    requires Inv(cfg, s) && s.worker.Up? && s.worker.pc.Clearing?
    requires p in s.db.cancelled && p !in DoClear(s, failed).db.cancelled
    ensures b.entry.playerID == p && Loose(s, p, b.member) && Shelved(DoClear(s, failed), b.member)
  {
    b :| b in s.worker.pc.discarded && b.entry.playerID == p;
    CarriedIsLoose(s, b);
    DiscardedIsShelved(s, failed, b);
  }

  /** Flags are set by cancelling, and cleared by workers after discarding. */
  lemma CancelledFrame(cfg: Config, s: Sys, a: Action)
    requires cfg.n >= 1 && Enabled(cfg, s, a) && !a.Clear? && !a.OtherShards?
    ensures s.db.cancelled <= Apply(cfg, s, a).db.cancelled
    ensures !a.CancelPlayer? ==> Apply(cfg, s, a).db.cancelled == s.db.cancelled
  {
    hide PopMin, Parse, Flagged, Select, CommitAllowed, MembersOf, UnixMilli, Kept, Requeue;
    if ByWorker(a) && !a.TryCommit? {
      WorkerFrame(cfg, s, a);
    } else if Opens(a) {
      OpenFrame(cfg, s, a);
    }
  }

  lemma ScoresGrow(cfg: Config, s: Sys, a: Action)
    requires cfg.n >= 1 && Enabled(cfg, s, a)
    ensures s.hist.scores.Keys <= Apply(cfg, s, a).hist.scores.Keys
  {
    hide PopMin, Parse, Flagged, Select, CommitAllowed, MembersOf, UnixMilli, Kept, Requeue;
    if ByWorker(a) && !a.TryCommit? {
      WorkerFrame(cfg, s, a);
    } else if Opens(a) {
      OpenFrame(cfg, s, a);
    } else if Quiet(a) {
      ServeFrame(cfg, s, a);
    }
  }

  lemma HeldStep(cfg: Config, s: Sys, a: Action, p: string)
    requires Inv(cfg, s) && Enabled(cfg, s, a) && Held(s, p) && Within(s, a, p) && AtMostOneLoose(s, p)
    ensures Held(Apply(cfg, s, a), p)
  {
    hide Loose, Enabled, Apply, Inv;
    InvHasSize(cfg, s);
    var t := Apply(cfg, s, a);
    if p in s.db.cancelled && a.Clear? {
      ClearIsStep(cfg, s, a.failed);
      ClearHeld(cfg, s, a.failed, p);
    } else if p in s.db.cancelled && !a.OtherShards? {
      CancelledFrame(cfg, s, a);
    } else if p !in s.db.cancelled || p !in a.cancelled {
      forall m
        ensures !Loose(t, p, m)
      {
        if Loose(t, p, m) {
          LooseStep(cfg, s, a, p, m);
        }
      }
    } else {
      OthersSet(cfg, s, a.cancelled);
    }
  }

  lemma InvHasSize(cfg: Config, s: Sys)
    requires Inv(cfg, s)
    ensures cfg.n >= 1
  {
  }

  lemma OthersSet(cfg: Config, s: Sys, cancelled: set<string>)
    requires cfg.n >= 1
    ensures Enabled(cfg, s, OtherShards(cancelled)) && Apply(cfg, s, OtherShards(cancelled)).db.cancelled == cancelled
  {
  }

  /** No commit takes a player whose cancellation is held. */
  lemma CommitSkips(cfg: Config, s: Sys, a: Action, p: string, id: MatchID)
    requires Inv(cfg, s) && Enabled(cfg, s, a) && Held(s, p)
    requires id in Apply(cfg, s, a).db.records && id !in s.db.records
    ensures p !in Apply(cfg, s, a).db.records[id].playerIDs
  {
    hide DoTryCommit, Held;
    if a.TryCommit? {
      GroupSkips(s, p);
      CommitAddsOne(cfg, s, a.now, a.fate, id);
    } else {
      OnlyCommitAdds(cfg, s, a);
    }
  }

  /** A player in the group whose cancellation is held is still in the cancelled set. */
  lemma GroupSkips(s: Sys, p: string)
    requires Placed(s) && Holding(s) && s.worker.Up? && s.worker.pc.Committing? && Held(s, p)
    ensures p in PlayersOf(EntriesOf(s.worker.pc.group)) ==> p in s.db.cancelled
  {
    hide Loose, Placed, Holding;
    var group := s.worker.pc.group;
    forall i | 0 <= i < |group| && group[i].entry.playerID == p
      ensures p in s.db.cancelled
    {
      assert group[i] in InHand(s.worker.pc);
      CarriedIsLoose(s, group[i]);
    }
  }

  lemma CommitAddsOne(cfg: Config, s: Sys, now: int, fate: Fate, id: MatchID)
    requires s.worker.Up? && s.worker.pc.Committing?
    requires id in DoTryCommit(cfg, s, now, fate).db.records && id !in s.db.records
    ensures CommitAllowed(s.db, PlayersOf(EntriesOf(s.worker.pc.group)))
    ensures DoTryCommit(cfg, s, now, fate).db.records[id].playerIDs == PlayersOf(EntriesOf(s.worker.pc.group))
  {
  }

  // ---- over runs -------------------------------------------------------------------------

  lemma {:induction false} HeldAlong(cfg: Config, trace: seq<Sys>, acts: seq<Action>, p: string, i: nat)
    requires IsRun(cfg, trace, acts) && Inv(cfg, trace[0]) && p in trace[0].db.cancelled && i <= |acts|
    requires forall j :: 0 <= j < i ==> Within(trace[j], acts[j], p) && AtMostOneLoose(trace[j], p)
    ensures Inv(cfg, trace[i]) && Held(trace[i], p)
    ensures forall id :: id in trace[i].db.records && id !in trace[0].db.records ==> p !in trace[i].db.records[id].playerIDs
  {
    hide Apply, Enabled, Held, Within, AtMostOneLoose;
    if i == 0 {
      FlaggedIsHeld(trace[0], p);
    } else {
      var s, a := trace[i - 1], acts[i - 1];
      HeldAlong(cfg, trace, acts, p, i - 1);
      InvStep(cfg, s, a);
      HeldStep(cfg, s, a, p);
      forall id | id in trace[i].db.records && id !in trace[0].db.records
        ensures p !in trace[i].db.records[id].playerIDs
      {
        if id !in s.db.records {
          CommitSkips(cfg, s, a, p, id);
        } else {
          assert GoodRecord(cfg, s, id);
          MatchFollows(cfg, s, a, id);
        }
      }
    }
  }

  lemma FlaggedIsHeld(s: Sys, p: string)
    requires p in s.db.cancelled
    ensures Held(s, p)
  {
  }

  /** From the moment Cancel(p) has run and as long as the worker lives, no match formed
      includes p, wherever p's loose entry was at that moment: in the queue, among the
      candidates already read, in the buffer, in a group being committed or pushed back,
      or in a match that is dissolved later; and even if the batch check fails. Entries of
      earlier sessions - confirmed, dropped or shelved - may be any number; p must not have
      two loose entries at a time, nor join again once the flag has been cleared. */
  lemma CancelledNeverCommitted(cfg: Config, trace: seq<Sys>, acts: seq<Action>, p: string, id: MatchID)
    requires IsRun(cfg, trace, acts) && Inv(cfg, trace[0]) && p in trace[0].db.cancelled
    requires forall j :: 0 <= j < |acts| ==> Within(trace[j], acts[j], p) && AtMostOneLoose(trace[j], p)
    requires id in trace[|acts|].db.records && id !in trace[0].db.records
    ensures p !in trace[|acts|].db.records[id].playerIDs
  {
    HeldAlong(cfg, trace, acts, p, |acts|);
  }

  lemma {:induction false} LooseShrink(cfg: Config, trace: seq<Sys>, acts: seq<Action>, p: string, i: nat)
    requires IsRun(cfg, trace, acts) && Inv(cfg, trace[0]) && i <= |acts|
    requires forall j :: 0 <= j < |acts| ==> !acts[j].Start? && !JoinOf(acts[j], p)
    ensures Inv(cfg, trace[i]) && forall m :: Loose(trace[i], p, m) ==> Loose(trace[0], p, m)
  {
    hide Apply, Enabled, Loose, Inv;
    if i > 0 {
      LooseShrink(cfg, trace, acts, p, i - 1);
      InvStep(cfg, trace[i - 1], acts[i - 1]);
      forall m | Loose(trace[i], p, m)
        ensures Loose(trace[0], p, m)
      {
        LooseStep(cfg, trace[i - 1], acts[i - 1], p, m);
      }
    }
  }

  /** So a caller who checks when Cancel(p) runs that p has at most one loose entry, and does
      not let p join again, is safe for the lifetime of the worker. */
  lemma CancelledForGood(cfg: Config, trace: seq<Sys>, acts: seq<Action>, p: string, id: MatchID)
    requires IsRun(cfg, trace, acts) && Inv(cfg, trace[0]) && p in trace[0].db.cancelled
    requires AtMostOneLoose(trace[0], p)
    requires forall j :: 0 <= j < |acts| ==>
      !acts[j].Start? && !JoinOf(acts[j], p) && (acts[j].OtherShards? && p in trace[j].db.cancelled ==> p in acts[j].cancelled)
    requires id in trace[|acts|].db.records && id !in trace[0].db.records
    ensures p !in trace[|acts|].db.records[id].playerIDs
  {
    hide Apply, Enabled, Loose, Inv;
    forall j | 0 <= j < |acts|
      ensures Within(trace[j], acts[j], p) && AtMostOneLoose(trace[j], p)
    {
      LooseShrink(cfg, trace, acts, p, j);
    }
    CancelledNeverCommitted(cfg, trace, acts, p, id);
  }

  // ---- one entry that counts -----------------------------------------------------------

  ghost predicate AtMostOneOpen(s: Sys, p: string) {
    forall m, m' :: OpenEntry(s, p, m) && OpenEntry(s, p, m') ==> m == m'
  }

  /** The flag stands, or the entry for which it was cleared is on the shelf. */
  ghost predicate Answered(s: Sys, p: string) {
    p in s.db.cancelled || exists m :: OnShelf(s, p, m)
  }

  ghost predicate OnShelf(s: Sys, p: string, m: Member) {
    m.Encoded? && m.entry.playerID == p && Shelved(s, m)
  }

  /** Workers of other bands leave the player's flag alone. */
  predicate Respects(s: Sys, a: Action, p: string) {
    !a.Start? && (a.OtherShards? && p in s.db.cancelled ==> p in a.cancelled)
  }

  lemma OnShelfCounts(cfg: Config, s: Sys, p: string, m: Member)
    requires Inv(cfg, s) && OnShelf(s, p, m)
    ensures OpenEntry(s, p, m) && m in s.hist.scores
  {
  }

  lemma AnsweredStep(cfg: Config, s: Sys, a: Action, p: string)
    requires Inv(cfg, s) && Enabled(cfg, s, a) && Answered(s, p) && Respects(s, a, p)
    ensures Answered(Apply(cfg, s, a), p)
  {
    hide Apply, Enabled, Inv, Shelved, OpenEntry;
    InvHasSize(cfg, s);
    var t := Apply(cfg, s, a);
    if p !in s.db.cancelled {
      var m :| OnShelf(s, p, m);
      OnShelfCounts(cfg, s, p, m);
      ShelvedStep(cfg, s, a, m);
      assert OnShelf(t, p, m);
    } else if a.Clear? {
      ClearIsStep(cfg, s, a.failed);
      if p !in t.db.cancelled {
        var b := ClearedFor(cfg, s, a.failed, p);
        assert OnShelf(t, p, b.member) by { OpenIsOfPlayer(s, p, b.member); }
      }
    } else if a.OtherShards? {
      OthersSet(cfg, s, a.cancelled);
    } else {
      CancelledFrame(cfg, s, a);
    }
  }

  lemma OpenIsOfPlayer(s: Sys, p: string, m: Member)
    ensures OpenEntry(s, p, m) ==> m.Encoded? && m.entry.playerID == p
  {
  }

  /** Once the flag has been cleared, another join would make a second entry that counts. */
  lemma JoinMakesTwo(cfg: Config, s: Sys, e: QueueEntry)
    requires Inv(cfg, s) && Enabled(cfg, s, Join(e)) && Answered(s, e.playerID) && e.playerID !in s.db.cancelled
    ensures !AtMostOneOpen(Apply(cfg, s, Join(e)), e.playerID)
  {
    var t := Apply(cfg, s, Join(e));
    var m :| OnShelf(s, e.playerID, m);
    OnShelfCounts(cfg, s, e.playerID, m);
    assert OpenEntry(t, e.playerID, m) && OpenEntry(t, e.playerID, Encoded(e)) && m != Encoded(e);
  }

  lemma {:induction false} AnsweredAlong(cfg: Config, trace: seq<Sys>, acts: seq<Action>, p: string, i: nat)
    requires IsRun(cfg, trace, acts) && Inv(cfg, trace[0]) && p in trace[0].db.cancelled && i <= |acts|
    requires forall j :: 0 <= j < |acts| ==> Respects(trace[j], acts[j], p)
    ensures Inv(cfg, trace[i]) && Answered(trace[i], p)
  {
    hide Apply, Enabled, Inv, OnShelf;
    if i > 0 {
      AnsweredAlong(cfg, trace, acts, p, i - 1);
      InvStep(cfg, trace[i - 1], acts[i - 1]);
      AnsweredStep(cfg, trace[i - 1], acts[i - 1], p);
    }
  }

  /** The same guarantee for a player who never has two entries that count, waiting on the
      shelf included: such a player cannot have joined again at a bad moment. */
  lemma OneOpenEntryIsEnough(cfg: Config, trace: seq<Sys>, acts: seq<Action>, p: string, id: MatchID)
    requires IsRun(cfg, trace, acts) && Inv(cfg, trace[0]) && p in trace[0].db.cancelled
    requires forall j :: 0 <= j < |acts| ==> Respects(trace[j], acts[j], p)
    requires forall j :: 0 <= j <= |acts| ==> AtMostOneOpen(trace[j], p)
    requires id in trace[|acts|].db.records && id !in trace[0].db.records
    ensures p !in trace[|acts|].db.records[id].playerIDs
  {
    hide Apply, Enabled, Inv, OpenEntry, Shelved, Answered;
    forall j | 0 <= j < |acts|
      ensures Within(trace[j], acts[j], p) && AtMostOneLoose(trace[j], p)
    {
      assert AtMostOneOpen(trace[j], p) && AtMostOneOpen(trace[j + 1], p);
      AnsweredAlong(cfg, trace, acts, p, j);
      if JoinOf(acts[j], p) && p !in trace[j].db.cancelled {
        JoinMakesTwo(cfg, trace[j], acts[j].e);
      }
    }
    CancelledNeverCommitted(cfg, trace, acts, p, id);
  }
}

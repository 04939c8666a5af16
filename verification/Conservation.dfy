/** No player is ever lost or in two places: the invariants of the protocol about queue,
    processing, the worker's hands and the live matches, kept by every step. */
module Conservation {
  import opened Model
  import opened Scripts
  import opened Grouping
  import opened Protocol

  // ---- the invariants -------------------------------------------------------------

  /** Scores are those of the join, and a decodable member's is its enqueue instant. */
  ghost predicate Scored(s: Sys) {
    && s.hist.place.Keys == s.hist.scores.Keys
    && (forall m :: m in s.db.queue ==> m in s.hist.scores && s.db.queue[m] == s.hist.scores[m])
    && (forall m :: m in s.db.processing ==> m in s.hist.scores && s.db.processing[m] == s.hist.scores[m])
    && (forall m :: m in s.hist.scores && m.Encoded? ==> s.hist.scores[m] == UnixMilli(m.entry.enqueuedAt))
  }

  ghost predicate Live(s: Sys, id: MatchID) {
    id in s.db.records && id in s.db.status && s.db.status[id] != Dissolved
  }

  ghost predicate LiveIn(s: Sys, id: MatchID, m: Member) {
    Live(s, id) && m.Encoded? && m.entry in s.db.records[id].entries
  }

  /** The recorded places are the real ones. */
  ghost predicate Placed(s: Sys) {
    s.hist.place.Keys == s.hist.scores.Keys && PlacedWaiting(s) && PlacedLive(s)
  }

  ghost predicate PlacedWaiting(s: Sys) {
    forall m :: m in s.hist.place ==> (s.hist.place[m] == Waiting <==> m in s.db.queue || m in s.db.processing)
  }

  ghost predicate PlacedLive(s: Sys) {
    && (forall m :: m in s.hist.place && s.hist.place[m].InMatch? ==> LiveIn(s, s.hist.place[m].id, m))
    && (forall id, m :: LiveIn(s, id, m) ==> m in s.hist.place && s.hist.place[m] == InMatch(id))
  }

  /** The entries that the worker carries besides its buffer. */
  function InHand(pc: PC): seq<Buffered> {
    match pc
    case Parsed(cands) => cands
    case Clearing(discarded) => discarded
    case Committing(group, _) => group
    case Repushing(group, _) => group
    case _ => []
  }

  ghost predicate Genuine(s: Sys, b: Buffered) {
    && b.member == Encoded(b.entry)
    && b.member in s.db.processing
    && b.member in s.hist.scores && b.score == s.hist.scores[b.member]
  }

  ghost predicate Distinct(xs: seq<Buffered>) {
    forall i, j :: 0 <= i < j < |xs| ==> xs[i] != xs[j]
  }

  ghost predicate Apart(xs: seq<Buffered>, ys: seq<Buffered>) {
    forall x :: x in xs ==> x !in ys
  }

  /** What the worker carries is in processing, carried once, and not in the queue,
      except that a group being pushed back is already there up to the k-th ZADD. */
  ghost predicate Holding(s: Sys) {
    s.worker.Up? ==>
      var hand := InHand(s.worker.pc);
      && Distinct(s.worker.buffer) && Distinct(hand) && Apart(s.worker.buffer, hand)
      && (forall b :: b in s.worker.buffer ==> Genuine(s, b) && b.member !in s.db.queue)
      && (forall b :: b in hand ==> Genuine(s, b) && (s.worker.pc.Repushing? || b.member !in s.db.queue))
      && (s.worker.pc.Repushing? ==>
            && s.worker.pc.k <= |s.worker.pc.group|
            && forall i :: 0 <= i < s.worker.pc.k ==> s.worker.pc.group[i].member in s.db.queue)
  }

  /** Status key, record and forming set agree; the requests in flight know real matches
      and carry records that differ from the stored ones at most in their status. */
  ghost predicate Consistent(cfg: Config, s: Sys) {
    RecordsAgree(cfg, s) && FormingAgrees(s) && OpsAgree(s)
  }

  ghost predicate RecordsAgree(cfg: Config, s: Sys) {
    s.db.status.Keys == s.db.records.Keys && forall id :: id in s.db.records ==> GoodRecord(cfg, s, id)
  }

  ghost predicate FormingAgrees(s: Sys) {
    && (forall id :: id in s.db.forming <==> IsForming(s.db, id))
    && (forall id :: id in s.db.forming && id in s.db.records ==> s.db.forming[id] == UnixMilli(s.db.records[id].formedAt))
  }

  ghost predicate OpsAgree(s: Sys) {
    forall k :: k in s.ops ==> GoodOp(s, s.ops[k])
  }

  ghost predicate GoodRecord(cfg: Config, s: Sys, id: MatchID)
    requires id in s.db.records
  {
    var rec := s.db.records[id];
    && rec.id == id && rec.shard == cfg.shard && id.shard == cfg.shard
    && id in s.db.status && rec.status == s.db.status[id]
    && rec.playerIDs == PlayersOf(rec.entries)
    && |rec.entries| == cfg.n
  }

  ghost predicate GoodOp(s: Sys, op: Op) {
    && op.id in s.db.records
    && (op.ConfirmRead? || op.DissolveRead? ==> SameMatch(op.rec, s.db.records[op.id]))
    && (op.Accepting? ==> op.need == |s.db.records[op.id].playerIDs|)
  }

  /** Identifiers in use come from earlier lifetimes or earlier commits of this one. */
  ghost predicate Numbered(s: Sys) {
    forall id :: id in s.db.records && s.worker.Up? ==>
      id.millis < s.worker.startMillis || id.seqNo <= s.worker.seqNo
  }

  /** A group being committed has exactly the match size. */
  ghost predicate Sized(cfg: Config, s: Sys) {
    s.worker.Up? && (s.worker.pc.Committing? || s.worker.pc.Repushing?) ==> |s.worker.pc.group| == cfg.n
  }

  ghost predicate Inv(cfg: Config, s: Sys) {
    && cfg.n >= 1
    && Scored(s) && Placed(s) && Holding(s) && Consistent(cfg, s) && Numbered(s) && Sized(cfg, s)
  }

  lemma InvInitially(cfg: Config)
    requires cfg.n >= 1
    ensures Inv(cfg, INITIAL)
  {
  }

  // ---- the lists that the worker computes --------------------------------------------

  lemma {:induction false} ParseSound(batch: seq<Member>, scores: map<Member, int>, i: nat)
    requires i <= |batch| && forall m :: m in batch ==> m in scores
    requires forall j, k :: 0 <= j < k < |batch| ==> batch[j] != batch[k]
    ensures Distinct(Parse(batch, scores, i))
    ensures forall b :: b in Parse(batch, scores, i) ==>
      b.member == Encoded(b.entry) && b.member in scores && b.score == scores[b.member]
      && exists j :: 0 <= j < i && batch[j] == b.member
  {
    if i > 0 {
      ParseSound(batch, scores, i - 1);
    }
  }

  lemma {:induction false} FlaggedSound(cands: seq<Buffered>, cancelled: set<string>, flag: bool, i: nat)
    requires i <= |cands| && Distinct(cands)
    ensures Distinct(Flagged(cands, cancelled, flag, i))
    ensures forall b :: b in Flagged(cands, cancelled, flag, i) ==>
      (b.entry.playerID in cancelled) == flag && exists j :: 0 <= j < i && cands[j] == b
  {
    if i > 0 {
      FlaggedSound(cands, cancelled, flag, i - 1);
    }
  }

  lemma DistinctConcat(xs: seq<Buffered>, ys: seq<Buffered>)
    requires Distinct(xs) && Distinct(ys) && Apart(xs, ys)
    ensures Distinct(xs + ys)
  {
    forall i, j | 0 <= i < j < |xs + ys|
      ensures (xs + ys)[i] != (xs + ys)[j]
    {
      if i < |xs| <= j {
        assert (xs + ys)[i] in xs && (xs + ys)[j] in ys;
      }
    }
  }

  /** Two parts of a list without repetitions have none and nothing in common. */
  lemma DistinctParts(xs: seq<Buffered>, ys: seq<Buffered>, zs: seq<Buffered>)
    requires multiset(xs) == multiset(ys) + multiset(zs) && Distinct(xs)
    ensures Distinct(ys) && Distinct(zs) && Apart(ys, zs)
    ensures forall b :: b in xs <==> b in ys || b in zs
  {
    DistinctMeansOnce(xs);
    forall b | b in ys || b in zs
      ensures multiset(ys)[b] + multiset(zs)[b] == 1
    {
      assert b in multiset(xs);
    }
    OnceMeansDistinct(ys);
    OnceMeansDistinct(zs);
    forall b
      ensures b in xs <==> b in ys || b in zs
    {
      assert b in multiset(xs) <==> b in multiset(ys) || b in multiset(zs);
    }
  }

  lemma {:induction false} DistinctMeansOnce(xs: seq<Buffered>)
    requires Distinct(xs)
    ensures forall b :: b in xs ==> multiset(xs)[b] == 1
  {
    if xs != [] {
      var k := |xs| - 1;
      DistinctMeansOnce(xs[..k]);
      assert xs == xs[..k] + [xs[k]];
      assert xs[k] !in xs[..k];
    }
  }

  lemma OnceMeansDistinct(xs: seq<Buffered>)
    requires forall b :: b in xs ==> multiset(xs)[b] == 1
    ensures Distinct(xs)
  {
    forall i, j | 0 <= i < j < |xs|
      ensures xs[i] != xs[j]
    {
      var front, back := xs[..i + 1], xs[i + 1..];
      assert xs == front + back;
      assert front[i] in front && back[j - i - 1] in back;
      assert multiset(xs)[xs[i]] == multiset(front)[xs[i]] + multiset(back)[xs[i]];
    }
  }

  lemma GroupMembers(group: seq<Buffered>)
    ensures forall m :: m in MembersOf(group) <==> exists b :: b in group && b.member == m
    ensures forall e :: e in EntriesOf(group) <==> exists b :: b in group && b.entry == e
  {
    forall b | b in group
      ensures b.member in MembersOf(group) && b.entry in EntriesOf(group)
    {
      var i :| 0 <= i < |group| && group[i] == b;
      assert MembersOf(group)[i] == b.member && EntriesOf(group)[i] == b.entry;
    }
  }

  // ---- every step keeps them ---------------------------------------------------------

  ghost predicate Core(s: Sys) {
    Scored(s) && Placed(s) && Holding(s)
  }

  /** Steps that touch neither the sorted sets nor the matches, and at most stop the worker. */
  lemma FrameCore(s: Sys, t: Sys)
    requires Core(s)
    requires t.db.queue == s.db.queue && t.db.processing == s.db.processing
    requires t.db.records == s.db.records && t.db.status == s.db.status
    requires t.worker == s.worker || t.worker.Down?
    requires t.hist.scores == s.hist.scores && t.hist.place == s.hist.place
    ensures Core(t)
  {
    FramePlaced(s, t);
  }

  /** Moving members between queue and processing keeps every place. */
  lemma FramePlaced(s: Sys, t: Sys)
    requires Placed(s)
    requires t.db.queue.Keys + t.db.processing.Keys == s.db.queue.Keys + s.db.processing.Keys
    requires t.db.records == s.db.records && t.db.status == s.db.status
    requires t.hist.scores == s.hist.scores && t.hist.place == s.hist.place
    ensures Placed(t)
  {
    assert forall id, m :: LiveIn(t, id, m) <==> LiveIn(s, id, m);
    forall m | m in t.hist.place
      ensures t.hist.place[m] == Waiting <==> m in t.db.queue || m in t.db.processing
    {
      assert m in t.db.queue || m in t.db.processing <==> m in t.db.queue.Keys + t.db.processing.Keys;
      assert m in s.db.queue || m in s.db.processing <==> m in s.db.queue.Keys + s.db.processing.Keys;
    }
  }

  lemma ArriveCore(s: Sys, m: Member, score: int)
    requires Core(s) && m !in s.hist.scores
    requires m.Encoded? ==> score == UnixMilli(m.entry.enqueuedAt)
    ensures Core(Arrive(s, m, score))
  {
    hide Scored, Placed, Holding, UnixMilli;
    ArriveScored(s, m, score);
    ArrivePlaced(s, m, score);
    ArriveHolding(s, m, score);
  }

  lemma ArriveScored(s: Sys, m: Member, score: int)
    requires Scored(s) && m !in s.hist.scores
    requires m.Encoded? ==> score == UnixMilli(m.entry.enqueuedAt)
    ensures Scored(Arrive(s, m, score))
  {
    hide UnixMilli;
  }

  lemma ArrivePlaced(s: Sys, m: Member, score: int)
    requires Placed(s) && m !in s.hist.scores
    ensures Placed(Arrive(s, m, score))
  {
    var t := Arrive(s, m, score);
    assert forall id, m' :: LiveIn(t, id, m') <==> LiveIn(s, id, m');
  }

  lemma ArriveHolding(s: Sys, m: Member, score: int)
    requires Scored(s) && Holding(s) && m !in s.hist.scores
    ensures Holding(Arrive(s, m, score))
  {
    var t := Arrive(s, m, score);
    assert forall b :: Genuine(s, b) ==> Genuine(t, b) && b.member != m;
  }

  lemma StartCore(s: Sys, millis: int)
    requires Core(s) && s.worker.Down?
    ensures Core(s.(db := Drain(s.db), worker := Up(millis, 0, [], Idle)))
  {
    FramePlaced(s, s.(db := Drain(s.db), worker := Up(millis, 0, [], Idle)));
  }

  /** A worker that is not pushing back may drop or rearrange what it carries. */
  lemma CarryCore(s: Sys, t: Sys)
    requires Core(s) && s.worker.Up? && !s.worker.pc.Repushing?
    requires t.db.queue == s.db.queue && t.db.processing == s.db.processing
    requires t.db.records == s.db.records && t.db.status == s.db.status
    requires t.hist == s.hist
    requires t.worker.Up? ==>
      var hand := InHand(t.worker.pc);
      && Distinct(t.worker.buffer) && Distinct(hand) && Apart(t.worker.buffer, hand)
      && (forall b :: b in t.worker.buffer || b in hand ==> b in s.worker.buffer || b in InHand(s.worker.pc))
      && (t.worker.pc.Repushing? ==> t.worker.pc.k == 0)
    ensures Core(t)
  {
    FramePlaced(s, t);
  }

  lemma PopCore(s: Sys, batch: seq<Member>, lost: bool)
    requires Core(s) && s.worker.Up? && s.worker.pc.Idle? && PopMin(s.db.queue, POP_BATCH_SIZE, batch)
    ensures Core(DoPop(s, batch, lost))
  {
    var popped := s.(db := Pop(s.db, batch));
    PoppedCore(s, popped, batch);
    var cands := Parse(batch, s.db.queue, |batch|);
    ParseSound(batch, s.db.queue, |batch|);
    PoppedHolding(s, popped, batch, cands);
    hide PopMin, Parse, Pop, Scored, Placed;
    if lost || cands == [] {
      CarryCore(popped, GoTo(popped, Idle));
    } else {
      SameButHand(popped, GoTo(popped, Parsed(cands)));
    }
  }

  /** Scores and places do not depend on where the worker stands. */
  lemma SameButHand(s: Sys, t: Sys)
    requires Scored(s) && Placed(s) && t == s.(worker := t.worker)
    ensures Scored(t) && Placed(t)
  {
    FramePlaced(s, t);
  }

  lemma PoppedCore(s: Sys, popped: Sys, batch: seq<Member>)
    requires Core(s) && s.worker.Up? && s.worker.pc.Idle? && forall m :: m in batch ==> m in s.db.queue
    requires popped == s.(db := Pop(s.db, batch))
    ensures Core(popped)
  {
    assert popped.db.queue.Keys + popped.db.processing.Keys == s.db.queue.Keys + s.db.processing.Keys;
    FramePlaced(s, popped);
  }

  lemma PoppedHolding(s: Sys, popped: Sys, batch: seq<Member>, cands: seq<Buffered>)
    requires Core(s) && s.worker.Up? && s.worker.pc.Idle? && forall m :: m in batch ==> m in s.db.queue
    requires popped == s.(db := Pop(s.db, batch)) && Holding(popped)
    requires Distinct(cands)
    requires forall b :: b in cands ==>
      b.member in batch && b.member == Encoded(b.entry) && b.score == s.db.queue[b.member]
    ensures Holding(GoTo(popped, Parsed(cands)))
  {
  }

  lemma CheckCore(s: Sys, failed: bool)
    requires Core(s) && s.worker.Up? && s.worker.pc.Parsed?
    ensures Core(DoCheck(s, failed))
  {
    var cands, cancelled := s.worker.pc.cands, if failed then {} else s.db.cancelled;
    FlaggedSound(cands, cancelled, true, |cands|);
    FlaggedSound(cands, cancelled, false, |cands|);
    DistinctConcat(s.worker.buffer, Flagged(cands, cancelled, false, |cands|));
    CarryCore(s, DoCheck(s, failed));
  }

  lemma ClearCore(s: Sys, failed: bool)
    requires Core(s) && s.worker.Up? && s.worker.pc.Clearing?
    ensures Core(DoClear(s, failed))
  {
    CarryCore(s, DoClear(s, failed));
  }

  lemma ChooseCore(cfg: Config, s: Sys, now: int)
    requires Core(s) && cfg.n >= 1 && s.worker.Up? && s.worker.pc.Choosing?
    ensures Core(DoChoose(cfg, s, now)) && Sized(cfg, DoChoose(cfg, s, now))
  {
    var sel := Select(s.worker.buffer, cfg.n, now);
    if sel.Found? {
      SelectSound(s.worker.buffer, cfg.n, now);
      DistinctParts(s.worker.buffer, sel.group, sel.remaining);
    }
    CarryCore(s, DoChoose(cfg, s, now));
  }

  lemma RepushAddHolding(s: Sys)
    requires Holding(s) && s.worker.Up? && s.worker.pc.Repushing? && s.worker.pc.k < |s.worker.pc.group|
    ensures Holding(DoRepushAdd(s))
  {
    var t, b := DoRepushAdd(s), s.worker.pc.group[s.worker.pc.k];
    assert b in s.worker.pc.group;
    assert forall c :: Genuine(s, c) <==> Genuine(t, c);
    assert forall c :: c in s.worker.buffer && c.member == b.member ==> c == b;
  }

  lemma RepushAddCore(s: Sys)
    requires Core(s) && s.worker.Up? && s.worker.pc.Repushing? && s.worker.pc.k < |s.worker.pc.group|
    ensures Core(DoRepushAdd(s))
  {
    var t, b := DoRepushAdd(s), s.worker.pc.group[s.worker.pc.k];
    assert b in s.worker.pc.group;
    assert t.db.queue.Keys + t.db.processing.Keys == s.db.queue.Keys + s.db.processing.Keys;
    FramePlaced(s, t);
    RepushAddHolding(s);
    hide Placed, Holding;
  }

  lemma RepushRemoveCore(s: Sys)
    requires Core(s) && s.worker.Up? && s.worker.pc.Repushing? && s.worker.pc.k == |s.worker.pc.group|
    ensures Core(DoRepushRemove(s))
  {
    var t, group := DoRepushRemove(s), s.worker.pc.group;
    assert forall m :: m in MembersOf(group) ==> m in s.db.queue;
    assert t.db.queue.Keys + t.db.processing.Keys == s.db.queue.Keys + s.db.processing.Keys;
    FramePlaced(s, t);
    ApartFromGroup(s, group);
  }

  lemma RepushFailCore(s: Sys)
    requires Core(s) && s.worker.Up? && s.worker.pc.Repushing?
    ensures Core(GoTo(s, Choosing))
  {
    FramePlaced(s, GoTo(s, Choosing));
  }

  /** A group in hand shares no member with the buffer. */
  lemma ApartFromGroup(s: Sys, group: seq<Buffered>)
    requires Holding(s) && s.worker.Up? && InHand(s.worker.pc) == group
    ensures forall b :: b in s.worker.buffer ==> b.member !in MembersOf(group)
  {
    GroupMembers(group);
    assert forall b, c :: b in s.worker.buffer && c in group && c.member == b.member ==> c == b;
  }

  lemma RefusedCore(cfg: Config, s: Sys, now: int, fate: Fate)
    requires Core(s) && s.worker.Up? && s.worker.pc.Committing?
    requires fate == Unsent || !CommitAllowed(s.db, PlayersOf(EntriesOf(s.worker.pc.group)))
    ensures Core(DoTryCommit(cfg, s, now, fate))
  {
    hide CommitAllowed, PlayersOf, EntriesOf, MembersOf, UnixMilli;
    CarryCore(s, DoTryCommit(cfg, s, now, fate));
  }

  /** What a commit that takes effect does. */
  lemma CommitEffect(cfg: Config, s: Sys, now: int, fate: Fate)
    requires s.worker.Up? && s.worker.pc.Committing?
    requires fate != Unsent && CommitAllowed(s.db, PlayersOf(EntriesOf(s.worker.pc.group)))
    ensures var t, group := DoTryCommit(cfg, s, now, fate), s.worker.pc.group;
      var rec := NewMatch(cfg, group, now, s.worker.seqNo + 1);
      && rec.entries == EntriesOf(group)
      && t.db == s.db.(records := s.db.records[rec.id := rec], status := s.db.status[rec.id := Forming],
                       forming := t.db.forming, processing := s.db.processing - Elements(MembersOf(group)), stream := t.db.stream)
      && t.hist.scores == s.hist.scores && t.hist.place == s.hist.place + Into(Elements(MembersOf(group)), rec.id)
      && (t.worker.Up? ==> t.worker.buffer == s.worker.buffer && t.worker.pc == Choosing)
  {
    hide CommitAllowed, PlayersOf, MembersOf, UnixMilli, Into;
  }

  lemma CommitKeepsKeys(s: Sys, group: seq<Buffered>, id: MatchID)
    requires Scored(s) && PlacedWaiting(s) && Holding(s) && s.worker.Up? && InHand(s.worker.pc) == group && !s.worker.pc.Repushing?
    ensures (s.hist.place + Into(Elements(MembersOf(group)), id)).Keys == s.hist.place.Keys
  {
    GroupIsWaiting(s, group);
    IntoKeys(s.hist.place, Elements(MembersOf(group)), id);
  }

  lemma CommittedCore(cfg: Config, s: Sys, now: int, fate: Fate)
    requires Core(s) && s.worker.Up? && s.worker.pc.Committing?
    requires NewMatch(cfg, s.worker.pc.group, now, s.worker.seqNo + 1).id !in s.db.records
    requires fate != Unsent && CommitAllowed(s.db, PlayersOf(EntriesOf(s.worker.pc.group)))
    ensures Core(DoTryCommit(cfg, s, now, fate))
  {
    var t, group := DoTryCommit(cfg, s, now, fate), s.worker.pc.group;
    var rec := NewMatch(cfg, group, now, s.worker.seqNo + 1);
    CommitEffect(cfg, s, now, fate);
    CommitKeepsKeys(s, group, rec.id);
    hide DoTryCommit, NewMatch, Placed, Scored, Holding;
    CommitPlaced(s, t, group, rec);
    CommitHolding(s, t, group);
  }

  /** A commit moves the group from processing into the new match. */
  lemma CommitCore(cfg: Config, s: Sys, now: int, fate: Fate)
    requires Core(s) && Consistent(cfg, s) && s.worker.Up? && s.worker.pc.Committing?
    requires NewMatch(cfg, s.worker.pc.group, now, s.worker.seqNo + 1).id !in s.db.records
    ensures Core(DoTryCommit(cfg, s, now, fate))
  {
    if fate == Unsent || !CommitAllowed(s.db, PlayersOf(EntriesOf(s.worker.pc.group))) {
      RefusedCore(cfg, s, now, fate);
    } else {
      CommittedCore(cfg, s, now, fate);
    }
  }

  lemma CommitHolding(s: Sys, t: Sys, group: seq<Buffered>)
    requires Scored(s) && Holding(s) && s.worker.Up? && InHand(s.worker.pc) == group && !s.worker.pc.Repushing?
    requires t.db.queue == s.db.queue && t.db.processing == s.db.processing - Elements(MembersOf(group))
    requires t.hist.scores == s.hist.scores && t.hist.place.Keys == s.hist.place.Keys
    requires t.worker.Up? ==> t.worker.buffer == s.worker.buffer && t.worker.pc == Choosing
    ensures Scored(t) && Holding(t)
  {
    ApartFromGroup(s, group);
  }

  lemma CommitPlaced(s: Sys, t: Sys, group: seq<Buffered>, rec: Match)
    requires Scored(s) && Placed(s) && Holding(s) && s.worker.Up? && InHand(s.worker.pc) == group && !s.worker.pc.Repushing?
    requires rec.id !in s.db.records && rec.entries == EntriesOf(group)
    requires t.db == s.db.(records := t.db.records, status := t.db.status, forming := t.db.forming,
                           processing := s.db.processing - Elements(MembersOf(group)), stream := t.db.stream)
    requires t.db.records == s.db.records[rec.id := rec] && t.db.status == s.db.status[rec.id := Forming]
    requires t.hist.scores == s.hist.scores
    requires t.hist.place == s.hist.place + Into(Elements(MembersOf(group)), rec.id)
    ensures Placed(t)
  {
    var members := Elements(MembersOf(group));
    GroupMembers(group);
    GroupIsWaiting(s, group);
    hide MembersOf, EntriesOf, Scored, Holding, PlacedWaiting, PlacedLive;
    IntoKeys(s.hist.place, members, rec.id);
    hide Into;
    CommitWaiting(s, t, members, rec.id);
    CommitLive(s, t, members, rec);
  }

  lemma IntoKeys(place: map<Member, Place>, members: set<Member>, id: MatchID)
    requires forall m :: m in members ==> m in place
    ensures (place + Into(members, id)).Keys == place.Keys
  {
  }

  lemma GroupIsWaiting(s: Sys, group: seq<Buffered>)
    requires Scored(s) && PlacedWaiting(s) && Holding(s) && s.worker.Up? && InHand(s.worker.pc) == group && !s.worker.pc.Repushing?
    ensures forall m :: m in MembersOf(group) ==> m !in s.db.queue && m in s.hist.place && s.hist.place[m] == Waiting
    ensures forall m :: m in MembersOf(group) <==> m.Encoded? && m.entry in EntriesOf(group)
  {
    GroupMembers(group);
  }

  lemma CommitWaiting(s: Sys, t: Sys, members: set<Member>, id: MatchID)
    requires PlacedWaiting(s) && forall m :: m in members ==> m !in s.db.queue
    requires t.db.queue == s.db.queue && t.db.processing == s.db.processing - members
    requires t.hist.place == s.hist.place + Into(members, id)
    ensures PlacedWaiting(t)
  {
  }

  lemma CommitLive(s: Sys, t: Sys, members: set<Member>, rec: Match)
    requires PlacedLive(s) && rec.id !in s.db.records
    requires forall m :: m in members ==> m in s.hist.place && s.hist.place[m] == Waiting
    requires forall m :: m in members <==> m.Encoded? && m.entry in rec.entries
    requires t.db.records == s.db.records[rec.id := rec] && t.db.status == s.db.status[rec.id := Forming]
    requires t.hist.place == s.hist.place + Into(members, rec.id)
    ensures PlacedLive(t)
  {
    assert forall id, m :: LiveIn(t, id, m) <==> if id == rec.id then m in members else LiveIn(s, id, m);
  }

  /** Confirming changes no place: the match stays live with the same entries. */
  lemma ConfirmCore(s: Sys, t: Sys, id: MatchID)
    requires Core(s) && t.db == Confirm(s.db, id) && t.worker == s.worker
    requires t.hist.scores == s.hist.scores && t.hist.place == s.hist.place
    ensures Core(t)
  {
    hide Placed, Holding;
    ConfirmPlaced(s, t, id);
    SameHolding(s, t);
  }

  lemma ConfirmPlaced(s: Sys, t: Sys, id: MatchID)
    requires Placed(s) && t.db == Confirm(s.db, id)
    requires t.hist.scores == s.hist.scores && t.hist.place == s.hist.place
    ensures Placed(t)
  {
    assert forall i, m :: LiveIn(t, i, m) <==> LiveIn(s, i, m);
  }

  lemma SameHolding(s: Sys, t: Sys)
    requires Holding(s) && t.worker == s.worker && t.hist.scores == s.hist.scores
    requires t.db.queue == s.db.queue && t.db.processing == s.db.processing
    ensures Holding(t)
  {
    assert forall b :: Genuine(s, b) <==> Genuine(t, b);
  }

  /** A dissolve sends every entry of the match back to the queue or out. */
  lemma DissolveCore(cfg: Config, s: Sys, k: nat)
    requires Core(s) && Consistent(cfg, s) && k in s.ops && s.ops[k].DissolveRead?
    ensures Core(DoDissolve(s, k))
  {
    var DissolveRead(id, declined, rec) := s.ops[k];
    assert GoodOp(s, s.ops[k]);
    if !IsForming(s.db, id) {
      FrameCore(s, DoDissolve(s, k));
    } else {
      DissolvePlaced(s, DoDissolve(s, k), id, declined, rec.entries);
      DissolveHolding(s, DoDissolve(s, k), id, declined, rec.entries);
    }
  }

  lemma DissolvePlaced(s: Sys, t: Sys, id: MatchID, declined: string, entries: seq<QueueEntry>)
    requires Scored(s) && Placed(s) && IsForming(s.db, id) && id in s.db.records && s.db.records[id].entries == entries
    requires t.db == Dissolve(s.db, id, declined, entries)
    requires t.hist.scores == s.hist.scores && t.hist.place == s.hist.place + Outcome(s, id, declined, entries)
    ensures Placed(t)
  {
    assert forall e :: e in entries ==> LiveIn(s, id, Encoded(e));
    var outcome := Outcome(s, id, declined, entries);
    assert t.hist.place.Keys == s.hist.place.Keys;
    DissolveLive(s, t, id, entries, outcome);
    DissolveWaiting(s, t, Kept(s.db, declined, entries), outcome);
  }

  lemma DissolveLive(s: Sys, t: Sys, id: MatchID, entries: seq<QueueEntry>, outcome: map<Member, Place>)
    requires PlacedLive(s) && Live(s, id) && s.db.records[id].entries == entries
    requires forall m :: m in outcome <==> m.Encoded? && m.entry in entries
    requires forall m :: m in outcome ==> !outcome[m].InMatch?
    requires t.db.records == s.db.records[id := s.db.records[id].(status := Dissolved)]
    requires t.db.status == s.db.status[id := Dissolved]
    requires t.hist.place == s.hist.place + outcome
    ensures PlacedLive(t)
  {
    assert forall m :: m in outcome ==> LiveIn(s, id, m);
    assert forall i, m :: LiveIn(t, i, m) <==> i != id && LiveIn(s, i, m);
  }

  lemma DissolveWaiting(s: Sys, t: Sys, kept: set<Member>, outcome: map<Member, Place>)
    requires PlacedWaiting(s) && forall m :: m in kept ==> m.Encoded? && m in outcome
    requires forall m :: m in outcome ==> m in s.hist.place && s.hist.place[m].InMatch? && (outcome[m] == Waiting <==> m in kept)
    requires t.db.queue == Requeue(s.db.queue, kept) && t.db.processing == s.db.processing
    requires t.hist.place == s.hist.place + outcome
    ensures PlacedWaiting(t)
  {
  }

  lemma DissolveHolding(s: Sys, t: Sys, id: MatchID, declined: string, entries: seq<QueueEntry>)
    requires Core(s) && IsForming(s.db, id) && id in s.db.records && s.db.records[id].entries == entries
    requires t.db == Dissolve(s.db, id, declined, entries) && t.worker == s.worker
    requires t.hist.scores == s.hist.scores && t.hist.place.Keys == s.hist.place.Keys
    ensures Scored(t) && Holding(t)
  {
    var kept := Kept(s.db, declined, entries);
    KeptAreOut(s, id, declined, entries);
    hide Scored, Placed, Holding, Kept, Requeue;
    RequeueScored(s, t, kept);
    RequeueHolding(s, t, kept);
  }

  lemma KeptAreOut(s: Sys, id: MatchID, declined: string, entries: seq<QueueEntry>)
    requires Placed(s) && IsForming(s.db, id) && id in s.db.records && s.db.records[id].entries == entries
    ensures forall m :: m in Kept(s.db, declined, entries) ==> m in s.hist.scores && m !in s.db.processing
  {
    forall m | m in Kept(s.db, declined, entries)
      ensures m in s.hist.scores && m !in s.db.processing
    {
      assert LiveIn(s, id, m);
    }
  }

  lemma RequeueScored(s: Sys, t: Sys, kept: set<Member>)
    requires Scored(s) && forall m :: m in kept ==> m.Encoded? && m in s.hist.scores
    requires t.db.queue == Requeue(s.db.queue, kept) && t.db.processing == s.db.processing
    requires t.hist.scores == s.hist.scores && t.hist.place.Keys == s.hist.place.Keys
    ensures Scored(t)
  {
    hide UnixMilli;
  }

  lemma RequeueHolding(s: Sys, t: Sys, kept: set<Member>)
    requires Holding(s) && forall m :: m in kept ==> m.Encoded? && m !in s.db.processing
    requires t.db.queue == Requeue(s.db.queue, kept) && t.db.processing == s.db.processing
    requires t.worker == s.worker && t.hist.scores == s.hist.scores
    ensures Holding(t)
  {
    assert forall b :: Genuine(s, b) <==> Genuine(t, b);
  }

  // ---- the matches and the requests in flight ---------------------------------------------

  /** Every change that a step makes to the matches. */
  ghost predicate Undisturbed(s: Sys, t: Sys) {
    && t.db.records == s.db.records && t.db.status == s.db.status && t.db.forming == s.db.forming
  }

  lemma SettleConsistent(cfg: Config, s: Sys, t: Sys, id: MatchID, to: Status)
    requires Consistent(cfg, s) && IsForming(s.db, id) && to != Forming
    requires var u := Settle(s.db, id, to);
      t.db.records == u.records && t.db.status == u.status && t.db.forming == u.forming
    requires forall k :: k in t.ops ==> k in s.ops && t.ops[k] == s.ops[k]
    ensures Consistent(cfg, t)
  {
    SettleMeans(s.db, id, to);
    FormingIsRecorded(cfg, s, id);
    hide RecordsAgree, FormingAgrees, OpsAgree, Settle, SameMatch;
    SettleRecords(cfg, s, t, id, to);
    SettleForming(s, t, id, to);
    SameOps(s, t);
  }

  lemma FormingIsRecorded(cfg: Config, s: Sys, id: MatchID)
    requires RecordsAgree(cfg, s) && IsForming(s.db, id)
    ensures id in s.db.records
  {
  }

  lemma SettleMeans(db: Db, id: MatchID, to: Status)
    ensures var u := Settle(db, id, to);
      && u.status == db.status[id := to] && u.forming == db.forming - {id}
      && u.records == if id in db.records then db.records[id := db.records[id].(status := to)] else db.records
  {
  }

  lemma SettleForming(s: Sys, t: Sys, id: MatchID, to: Status)
    requires FormingAgrees(s) && to != Forming
    requires t.db.status == s.db.status[id := to] && t.db.forming == s.db.forming - {id}
    requires forall i :: i in t.db.records ==> i in s.db.records && SameMatch(t.db.records[i], s.db.records[i])
    ensures FormingAgrees(t)
  {
    hide UnixMilli;
  }

  /** Requests that were good stay good while records change in their status only. */
  lemma SameOps(s: Sys, t: Sys)
    requires OpsAgree(s) && forall k :: k in t.ops ==> k in s.ops && t.ops[k] == s.ops[k]
    requires forall i :: i in s.db.records ==> i in t.db.records && SameMatch(t.db.records[i], s.db.records[i])
    ensures OpsAgree(t)
  {
    forall k | k in t.ops
      ensures GoodOp(t, t.ops[k])
    {
      assert GoodOp(s, s.ops[k]);
    }
  }

  lemma SettleRecords(cfg: Config, s: Sys, t: Sys, id: MatchID, to: Status)
    requires RecordsAgree(cfg, s) && id in s.db.records
    requires t.db.status == s.db.status[id := to]
    requires t.db.records == s.db.records[id := s.db.records[id].(status := to)]
    ensures RecordsAgree(cfg, t) && t.db.records.Keys == s.db.records.Keys
    ensures forall i :: i in t.db.records ==> SameMatch(t.db.records[i], s.db.records[i])
  {
    hide PlayersOf;
    forall i | i in t.db.records
      ensures GoodRecord(cfg, t, i)
    {
      assert GoodRecord(cfg, s, i);
    }
    assert t.db.records.Keys == s.db.records.Keys;
  }

  lemma FrameConsistent(cfg: Config, s: Sys, t: Sys)
    requires Consistent(cfg, s) && Undisturbed(s, t)
    requires forall k :: k in t.ops ==> (k in s.ops && t.ops[k] == s.ops[k]) || GoodOp(t, t.ops[k])
    ensures Consistent(cfg, t)
  {
    forall i | i in t.db.records
      ensures GoodRecord(cfg, t, i)
    {
      assert GoodRecord(cfg, s, i);
    }
    forall k | k in t.ops
      ensures GoodOp(t, t.ops[k])
    {
      if k in s.ops && t.ops[k] == s.ops[k] {
        assert GoodOp(s, s.ops[k]);
      }
    }
  }

  lemma CommitConsistent(cfg: Config, s: Sys, t: Sys, rec: Match)
    requires Consistent(cfg, s) && rec.id !in s.db.records && t.ops == s.ops
    requires rec.shard == cfg.shard == rec.id.shard && rec.status == Forming
    requires rec.playerIDs == PlayersOf(rec.entries) && |rec.entries| == cfg.n
    requires t.db.records == s.db.records[rec.id := rec] && t.db.status == s.db.status[rec.id := Forming]
    requires t.db.forming == s.db.forming[rec.id := UnixMilli(rec.formedAt)]
    ensures Consistent(cfg, t)
  {
    hide RecordsAgree, FormingAgrees, OpsAgree, UnixMilli, PlayersOf;
    CommitRecordsAgree(cfg, s, t, rec);
    CommitFormingAgrees(s, t, rec);
    SameOps(s, t);
  }

  lemma CommitRecordsAgree(cfg: Config, s: Sys, t: Sys, rec: Match)
    requires RecordsAgree(cfg, s) && rec.id !in s.db.records
    requires rec.shard == cfg.shard == rec.id.shard && rec.status == Forming
    requires rec.playerIDs == PlayersOf(rec.entries) && |rec.entries| == cfg.n
    requires t.db.records == s.db.records[rec.id := rec] && t.db.status == s.db.status[rec.id := Forming]
    ensures RecordsAgree(cfg, t)
  {
    hide PlayersOf;
    forall i | i in t.db.records
      ensures GoodRecord(cfg, t, i)
    {
      if i != rec.id {
        assert GoodRecord(cfg, s, i);
      }
    }
  }

  lemma CommitFormingAgrees(s: Sys, t: Sys, rec: Match)
    requires FormingAgrees(s) && rec.id !in s.db.records
    requires t.db.records == s.db.records[rec.id := rec] && t.db.status == s.db.status[rec.id := Forming]
    requires t.db.forming == s.db.forming[rec.id := UnixMilli(rec.formedAt)]
    ensures FormingAgrees(t)
  {
    hide UnixMilli;
  }

  lemma FreshMatch(cfg: Config, s: Sys, now: int)
    requires Numbered(s) && s.worker.Up? && s.worker.pc.Committing? && s.worker.startMillis <= UnixMilli(now)
    ensures NewMatch(cfg, s.worker.pc.group, now, s.worker.seqNo + 1).id !in s.db.records
  {
  }

  // ---- all together -----------------------------------------------------------------------

  predicate ByWorker(a: Action) {
    a.Start? || a.Crash? || a.PopBatch? || a.Check? || a.Clear? || a.Choose? || a.TryCommit?
    || a.RepushAdd? || a.RepushRemove? || a.RepushFail?
  }

  lemma WorkerCore(cfg: Config, s: Sys, a: Action)
    requires Inv(cfg, s) && Enabled(cfg, s, a) && ByWorker(a)
    ensures Core(Apply(cfg, s, a))
  {
    match a
    case Start(millis) => StartCore(s, millis);
    case Crash => FrameCore(s, s.(worker := Down));
    case PopBatch(batch, lost) => PopCore(s, batch, lost);
    case Check(failed) => CheckCore(s, failed);
    case Clear(failed) => ClearCore(s, failed);
    case Choose(now) => ChooseCore(cfg, s, now);
    case TryCommit(now, fate) =>
      FreshMatch(cfg, s, now);
      CommitCore(cfg, s, now, fate);
    case RepushAdd => RepushAddCore(s);
    case RepushRemove => RepushRemoveCore(s);
    case RepushFail => RepushFailCore(s);
  }

  /** A worker step other than a commit leaves everything alone but the worker, the waiting
      members and the cancelled set. */
  ghost predicate OnlyWorker(s: Sys, t: Sys) {
    t == s.(worker := t.worker, db := s.db.(queue := t.db.queue, processing := t.db.processing, cancelled := t.db.cancelled))
  }

  lemma PopFrame(s: Sys, batch: seq<Member>, lost: bool)
    requires s.worker.Up? && PopMin(s.db.queue, POP_BATCH_SIZE, batch)
    ensures OnlyWorker(s, DoPop(s, batch, lost)) && DoPop(s, batch, lost).db.cancelled == s.db.cancelled
  {
    hide Parse, PopMin;
  }

  lemma CarryFrame(cfg: Config, s: Sys, a: Action)
    requires cfg.n >= 1 && Enabled(cfg, s, a) && (a.Check? || a.Clear? || a.Choose?)
    ensures OnlyWorker(s, Apply(cfg, s, a))
    ensures !a.Clear? ==> Apply(cfg, s, a).db.cancelled == s.db.cancelled
  {
    hide Flagged, Select;
  }

  lemma WorkerFrame(cfg: Config, s: Sys, a: Action)
    requires cfg.n >= 1 && Enabled(cfg, s, a) && ByWorker(a) && !a.TryCommit?
    ensures OnlyWorker(s, Apply(cfg, s, a))
    ensures !a.Clear? ==> Apply(cfg, s, a).db.cancelled == s.db.cancelled
  {
    hide PopMin, Parse, Flagged, CommitAllowed, MembersOf, UnixMilli, Select, Pop;
    match a
    case PopBatch(batch, lost) => PopFrame(s, batch, lost);
    case Check(failed) => CarryFrame(cfg, s, a);
    case Clear(failed) => CarryFrame(cfg, s, a);
    case Choose(now) => CarryFrame(cfg, s, a);
    case _ =>
  }

  lemma WorkerQuiet(cfg: Config, s: Sys, a: Action)
    requires cfg.n >= 1 && Enabled(cfg, s, a) && ByWorker(a) && !a.TryCommit? && !a.Start?
    ensures var t := Apply(cfg, s, a);
      && Undisturbed(s, t) && t.ops == s.ops
      && (t.worker.Up? ==> s.worker.Up? && t.worker.startMillis == s.worker.startMillis && t.worker.seqNo == s.worker.seqNo)
      && (t.worker.Up? && !a.Choose? && (t.worker.pc.Committing? || t.worker.pc.Repushing?) ==>
            s.worker.pc.Repushing? && t.worker.pc.group == s.worker.pc.group)
  {
    hide PopMin, Parse, Flagged, CommitAllowed, MembersOf, UnixMilli, Select;
    WorkerFrame(cfg, s, a);
  }

  lemma FrameNumbers(cfg: Config, s: Sys, t: Sys)
    requires Numbered(s) && t.db.records.Keys == s.db.records.Keys
    requires t.worker.Up? ==> s.worker.Up? && t.worker.startMillis == s.worker.startMillis && t.worker.seqNo >= s.worker.seqNo
    ensures Numbered(t)
  {
  }

  lemma WorkerMatches(cfg: Config, s: Sys, a: Action)
    requires Inv(cfg, s) && Enabled(cfg, s, a) && ByWorker(a) && !a.TryCommit? && !a.Start?
    ensures var t := Apply(cfg, s, a); Consistent(cfg, t) && Numbered(t) && Sized(cfg, t)
  {
    WorkerQuiet(cfg, s, a);
    FrameConsistent(cfg, s, Apply(cfg, s, a));
    FrameNumbers(cfg, s, Apply(cfg, s, a));
    if a.Choose? {
      ChooseCore(cfg, s, a.now);
    }
  }

  lemma StartMatches(cfg: Config, s: Sys, millis: int)
    requires Inv(cfg, s) && Enabled(cfg, s, Start(millis))
    ensures var t := Apply(cfg, s, Start(millis)); Consistent(cfg, t) && Numbered(t) && Sized(cfg, t)
  {
    FrameConsistent(cfg, s, Apply(cfg, s, Start(millis)));
  }

  lemma EntriesCount(group: seq<Buffered>)
    ensures |EntriesOf(group)| == |group|
  {
  }

  lemma CommitMatches(cfg: Config, s: Sys, now: int, fate: Fate)
    requires Inv(cfg, s) && Enabled(cfg, s, TryCommit(now, fate))
    ensures var t := DoTryCommit(cfg, s, now, fate); Consistent(cfg, t) && Numbered(t) && Sized(cfg, t)
  {
    hide Scored, Placed, Holding, Consistent, UnixMilli, PlayersOf, EntriesOf, MembersOf;
    var t := DoTryCommit(cfg, s, now, fate);
    FreshMatch(cfg, s, now);
    var rec := NewMatch(cfg, s.worker.pc.group, now, s.worker.seqNo + 1);
    if fate == Unsent || !CommitAllowed(s.db, rec.playerIDs) {
      FrameConsistent(cfg, s, t);
      FrameNumbers(cfg, s, t);
    } else {
      EntriesCount(s.worker.pc.group);
      CommitConsistent(cfg, s, t, rec);
    }
  }

  lemma CommitMatchesStep(cfg: Config, s: Sys, now: int, fate: Fate)
    requires Inv(cfg, s) && Enabled(cfg, s, TryCommit(now, fate))
    ensures var t := Apply(cfg, s, TryCommit(now, fate)); Consistent(cfg, t) && Numbered(t) && Sized(cfg, t)
  {
    hide Scored, Placed, Holding, Consistent, Numbered, Sized, DoTryCommit;
    CommitMatches(cfg, s, now, fate);
  }

  /** Client and request steps other than joining, confirming and dissolving. */
  predicate Quiet(a: Action) {
    !ByWorker(a) && !a.Join? && !a.Intrude? && !a.ConfirmStep? && !a.DissolveStep?
  }

  ghost predicate OnlyRequests(s: Sys, t: Sys) {
    && Undisturbed(s, t) && t.worker == s.worker
    && t.db.queue == s.db.queue && t.db.processing == s.db.processing
    && t.hist.scores == s.hist.scores && t.hist.place == s.hist.place
  }

  ghost predicate OpsFollow(s: Sys, t: Sys) {
    forall k :: k in t.ops ==> (k in s.ops && t.ops[k] == s.ops[k]) || GoodOp(t, t.ops[k])
  }

  predicate Opens(a: Action) {
    a.AcceptCall? || a.DeclineCall? || a.Sweep?
  }

  lemma DeclineFrame(s: Sys, k: nat, id: MatchID, p: string)
    ensures var t := DoDecline(s, k, id, p);
      t == s.(ops := t.ops, db := s.db.(declined := t.db.declined))
  {
  }

  lemma OpenFrame(cfg: Config, s: Sys, a: Action)
    requires cfg.n >= 1 && Enabled(cfg, s, a) && Opens(a)
    ensures var t := Apply(cfg, s, a);
      OnlyRequests(s, t) && t.hist == s.hist && t.db == s.db.(declined := t.db.declined)
  {
    hide PopMin, Parse, Flagged, Select, CommitAllowed, MembersOf, UnixMilli;
    match a
    case DeclineCall(k, id, p) => DeclineFrame(s, k, id, p);
    case _ =>
  }

  lemma ServeFrame(cfg: Config, s: Sys, a: Action)
    requires cfg.n >= 1 && Enabled(cfg, s, a) && Quiet(a) && !Opens(a)
    ensures var t := Apply(cfg, s, a);
      && OnlyRequests(s, t) && t.hist == s.hist.(full := t.hist.full)
      && t.db == s.db.(accepted := t.db.accepted, cancelled := t.db.cancelled)
  {
    hide PopMin, Parse, Flagged, Select, CommitAllowed, MembersOf, UnixMilli;
    match a
    case AcceptStep(k) => AcceptFrame(s, k);
    case _ =>
  }

  lemma AcceptOnly(db: Db, id: MatchID, p: string)
    ensures Accept(db, id, p) == db.(accepted := Accept(db, id, p).accepted)
  {
  }

  lemma AcceptFrame(s: Sys, k: nat)
    requires k in s.ops && s.ops[k].Accepting?
    ensures var t := DoAccept(s, k);
      t == s.(ops := t.ops, hist := s.hist.(full := t.hist.full), db := s.db.(accepted := t.db.accepted))
  {
    hide AcceptReply, Accept;
    var id, p := s.ops[k].id, s.ops[k].player;
    AcceptOnly(s.db, id, p);
  }

  lemma OpenOps(cfg: Config, s: Sys, a: Action)
    requires Consistent(cfg, s) && cfg.n >= 1 && Enabled(cfg, s, a) && Opens(a)
    ensures OpsFollow(s, Apply(cfg, s, a))
  {
    hide PopMin, Parse, Flagged, Select, CommitAllowed, MembersOf, UnixMilli, PlayersOf, GoodRecord;
    OpenFrame(cfg, s, a);
  }

  lemma ServeOps(cfg: Config, s: Sys, a: Action)
    requires Consistent(cfg, s) && cfg.n >= 1 && Enabled(cfg, s, a) && Quiet(a) && !Opens(a)
    ensures OpsFollow(s, Apply(cfg, s, a))
  {
    hide PopMin, Parse, Flagged, Select, CommitAllowed, MembersOf, UnixMilli, PlayersOf;
    ServeFrame(cfg, s, a);
    if a.AcceptStep? || a.ConfirmReadStep? || a.DissolveReadStep? {
      assert GoodOp(s, s.ops[a.k]);
    }
  }

  lemma QuietInv(cfg: Config, s: Sys, a: Action)
    requires Inv(cfg, s) && Enabled(cfg, s, a) && Quiet(a)
    ensures Inv(cfg, Apply(cfg, s, a))
  {
    if Opens(a) {
      OpenFrame(cfg, s, a);
      OpenOps(cfg, s, a);
    } else {
      ServeFrame(cfg, s, a);
      ServeOps(cfg, s, a);
    }
    QuietRest(cfg, s, Apply(cfg, s, a));
  }

  lemma QuietRest(cfg: Config, s: Sys, t: Sys)
    requires Inv(cfg, s) && OnlyRequests(s, t) && OpsFollow(s, t)
    ensures Inv(cfg, t)
  {
    FrameCore(s, t);
    FrameConsistent(cfg, s, t);
    FrameNumbers(cfg, s, t);
  }

  lemma ArriveInv(cfg: Config, s: Sys, m: Member, score: int)
    requires Inv(cfg, s) && m !in s.hist.scores
    requires m.Encoded? ==> score == UnixMilli(m.entry.enqueuedAt)
    ensures Inv(cfg, Arrive(s, m, score))
  {
    ArriveCore(s, m, score);
    FrameConsistent(cfg, s, Arrive(s, m, score));
    FrameNumbers(cfg, s, Arrive(s, m, score));
  }

  lemma ConfirmInv(cfg: Config, s: Sys, k: nat)
    requires Inv(cfg, s) && Enabled(cfg, s, ConfirmStep(k))
    ensures Inv(cfg, DoConfirm(s, k))
  {
    var t, id := DoConfirm(s, k), s.ops[k].id;
    ConfirmCore(s, t, id);
    assert GoodOp(s, s.ops[k]);
    FrameNumbers(cfg, s, t);
    if IsForming(s.db, id) {
      SettleConsistent(cfg, s, t, id, Confirmed);
    } else {
      FrameConsistent(cfg, s, t);
    }
  }

  lemma DissolveInv(cfg: Config, s: Sys, k: nat)
    requires Inv(cfg, s) && Enabled(cfg, s, DissolveStep(k))
    ensures Inv(cfg, DoDissolve(s, k))
  {
    var t, id := DoDissolve(s, k), s.ops[k].id;
    DissolveCore(cfg, s, k);
    assert GoodOp(s, s.ops[k]);
    FrameNumbers(cfg, s, t);
    if IsForming(s.db, id) {
      SettleConsistent(cfg, s, t, id, Dissolved);
    } else {
      FrameConsistent(cfg, s, t);
    }
  }

  lemma OtherInv(cfg: Config, s: Sys, a: Action)
    requires Inv(cfg, s) && Enabled(cfg, s, a) && !ByWorker(a) && !Quiet(a)
    ensures Inv(cfg, Apply(cfg, s, a))
  {
    hide Scored, Placed, Holding, Consistent, Numbered, Sized, Arrive, DoConfirm, DoDissolve;
    match a
    case Join(e) => ArriveInv(cfg, s, Encoded(e), UnixMilli(e.enqueuedAt));
    case Intrude(raw, score) => ArriveInv(cfg, s, Malformed(raw), score);
    case ConfirmStep(k) => ConfirmInv(cfg, s, k);
    case DissolveStep(k) => DissolveInv(cfg, s, k);
  }

  lemma InvStep(cfg: Config, s: Sys, a: Action)
    requires Inv(cfg, s) && Enabled(cfg, s, a)
    ensures Inv(cfg, Apply(cfg, s, a))
  {
    hide Inv, Apply, Enabled;
    if ByWorker(a) {
      WorkerInv(cfg, s, a);
    } else if Quiet(a) {
      QuietInv(cfg, s, a);
    } else {
      OtherInv(cfg, s, a);
    }
  }

  lemma WorkerInv(cfg: Config, s: Sys, a: Action)
    requires Inv(cfg, s) && Enabled(cfg, s, a) && ByWorker(a)
    ensures Inv(cfg, Apply(cfg, s, a))
  {
    hide Scored, Placed, Holding, Consistent, Numbered, Sized, Apply, Enabled;
    WorkerCore(cfg, s, a);
    if a.TryCommit? {
      CommitMatchesStep(cfg, s, a.now, a.fate);
    } else if a.Start? {
      StartMatches(cfg, s, a.millis);
    } else {
      WorkerMatches(cfg, s, a);
    }
  }

  lemma {:induction false} InvRun(cfg: Config, trace: seq<Sys>, acts: seq<Action>, i: nat)
    requires IsRun(cfg, trace, acts) && Inv(cfg, trace[0]) && i <= |acts|
    ensures Inv(cfg, trace[i])
  {
    if i > 0 {
      InvRun(cfg, trace, acts, i - 1);
      InvStep(cfg, trace[i - 1], acts[i - 1]);
    }
  }

  lemma InvReachable(cfg: Config, s: Sys)
    requires Reachable(cfg, s)
    ensures Inv(cfg, s)
  {
    var trace: seq<Sys>, acts: seq<Action> :|
      IsRun(cfg, trace, acts) && trace[0] == INITIAL && trace[|acts|] == s;
    InvInitially(cfg);
    InvRun(cfg, trace, acts, |acts|);
  }

  // ---- conservation -----------------------------------------------------------------------

  ghost predicate IsWaiting(s: Sys, m: Member) {
    m in s.db.queue || m in s.db.processing
  }

  ghost predicate InLiveMatch(s: Sys, m: Member) {
    exists id :: LiveIn(s, id, m)
  }

  ghost predicate WasDropped(s: Sys, m: Member) {
    m in s.hist.place && s.hist.place[m].Dropped?
  }

  /** Over every run each member that ever joined is in exactly one of: the queue or
      processing, one live match, or the set that a dissolve dropped. */
  lemma EachMemberInOnePlace(cfg: Config, s: Sys, m: Member)
    requires Reachable(cfg, s) && m in s.hist.scores
    ensures IsWaiting(s, m) || InLiveMatch(s, m) || WasDropped(s, m)
    ensures !(IsWaiting(s, m) && InLiveMatch(s, m))
    ensures !(IsWaiting(s, m) && WasDropped(s, m))
    ensures !(InLiveMatch(s, m) && WasDropped(s, m))
    ensures forall i, j :: LiveIn(s, i, m) && LiveIn(s, j, m) ==> i == j
  {
    InvReachable(cfg, s);
  }

  /** Nothing appears from nowhere, and what the worker carries can always be recovered. */
  lemma OnlyJoinedMembers(cfg: Config, s: Sys, m: Member)
    requires Reachable(cfg, s)
    requires IsWaiting(s, m) || InLiveMatch(s, m) || (s.worker.Up? && exists b :: (b in s.worker.buffer || b in InHand(s.worker.pc)) && b.member == m)
    ensures m in s.hist.scores
    ensures s.worker.Up? && (exists b :: (b in s.worker.buffer || b in InHand(s.worker.pc)) && b.member == m) ==> m in s.db.processing
  {
    InvReachable(cfg, s);
  }

  /** A member is dropped by one kind of step only: a dissolve that takes effect, for a
      player who declined or is cancelled at that instant. */
  lemma DroppedOnlyByDissolve(cfg: Config, s: Sys, a: Action, m: Member)
    requires Inv(cfg, s) && Enabled(cfg, s, a)
    requires !WasDropped(s, m) && WasDropped(Apply(cfg, s, a), m)
    ensures a.DissolveStep? && LiveIn(s, s.ops[a.k].id, m) && IsForming(s.db, s.ops[a.k].id)
    ensures m.entry.playerID == s.ops[a.k].declined || m.entry.playerID in s.db.cancelled
  {
    if ByWorker(a) {
      WorkerPlaces(cfg, s, a);
    } else if Opens(a) {
      OpenFrame(cfg, s, a);
    } else if Quiet(a) {
      ServeFrame(cfg, s, a);
    } else if a.DissolveStep? {
      assert GoodOp(s, s.ops[a.k]);
    }
  }

  /** What an effective dissolve does to each entry of its match: it waits again at its old
      position if its player neither declined nor is cancelled, and otherwise it has left the
      system. */
  lemma DissolveSortsEntries(cfg: Config, s: Sys, k: nat, e: QueueEntry)
    requires Inv(cfg, s) && k in s.ops && s.ops[k].DissolveRead? && IsForming(s.db, s.ops[k].id)
    requires s.ops[k].id in s.db.records && e in s.db.records[s.ops[k].id].entries
    ensures var t, m := DoDissolve(s, k), Encoded(e);
      if e.playerID != s.ops[k].declined && e.playerID !in s.db.cancelled
      then m in t.db.queue && t.db.queue[m] == UnixMilli(e.enqueuedAt)
      else WasDropped(t, m) && !IsWaiting(t, m) && !InLiveMatch(t, m)
  {
    var t, m, op := DoDissolve(s, k), Encoded(e), s.ops[k];
    assert GoodOp(s, op);
    KeptIs(s.db, op.declined, op.rec.entries, e);
    DissolveIs(s, k);
    DissolveInv(cfg, s, k);
    hide DoDissolve;
    if m in Kept(s.db, op.declined, op.rec.entries) {
      RequeuedIs(s.db.queue, Kept(s.db, op.declined, op.rec.entries), e);
    } else {
      OutcomeIs(s, op.id, op.declined, op.rec.entries, e);
      DroppedIsGone(t, m);
    }
  }

  lemma RequeuedIs(queue: map<Member, int>, kept: set<Member>, e: QueueEntry)
    requires Encoded(e) in kept && forall m :: m in kept ==> m.Encoded?
    ensures Encoded(e) in Requeue(queue, kept) && Requeue(queue, kept)[Encoded(e)] == UnixMilli(e.enqueuedAt)
  {
  }

  lemma OutcomeIs(s: Sys, id: MatchID, declined: string, entries: seq<QueueEntry>, e: QueueEntry)
    requires e in entries && Encoded(e) !in Kept(s.db, declined, entries)
    ensures Encoded(e) in Outcome(s, id, declined, entries) && Outcome(s, id, declined, entries)[Encoded(e)] == Dropped(id)
  {
    hide Kept;
  }

  lemma DroppedIsGone(t: Sys, m: Member)
    requires Placed(t) && WasDropped(t, m)
    ensures !IsWaiting(t, m) && !InLiveMatch(t, m)
  {
  }

  lemma KeptIs(db: Db, declined: string, entries: seq<QueueEntry>, e: QueueEntry)
    requires e in entries
    ensures Encoded(e) in Kept(db, declined, entries) <==> e.playerID != declined && e.playerID !in db.cancelled
  {
  }

  lemma DissolveIs(s: Sys, k: nat)
    requires k in s.ops && s.ops[k].DissolveRead? && IsForming(s.db, s.ops[k].id)
    ensures var t, op := DoDissolve(s, k), s.ops[k];
      && t.db.queue == Requeue(s.db.queue, Kept(s.db, op.declined, op.rec.entries))
      && t.hist.place == s.hist.place + Outcome(s, op.id, op.declined, op.rec.entries)
  {
  }

  lemma WorkerPlaces(cfg: Config, s: Sys, a: Action)
    requires cfg.n >= 1 && Enabled(cfg, s, a) && ByWorker(a)
    ensures forall m :: m in Apply(cfg, s, a).hist.place && Apply(cfg, s, a).hist.place[m].Dropped? ==> WasDropped(s, m)
  {
    if !a.TryCommit? {
      WorkerFrame(cfg, s, a);
    }
  }

  // ---- order ------------------------------------------------------------------------------

  /** A position in the queue is never lost: wherever a member waits its score is the
      instant of its own enqueueing, however often it was popped, pushed back, drained
      or dissolved. */
  lemma ScoreIsEnqueueTime(cfg: Config, s: Sys, e: QueueEntry)
    requires Reachable(cfg, s)
    ensures Encoded(e) in s.db.queue ==> s.db.queue[Encoded(e)] == UnixMilli(e.enqueuedAt)
    ensures Encoded(e) in s.db.processing ==> s.db.processing[Encoded(e)] == UnixMilli(e.enqueuedAt)
    ensures s.worker.Up? ==> forall b :: b in s.worker.buffer && b.entry == e ==> b.score == UnixMilli(e.enqueuedAt)
  {
    InvReachable(cfg, s);
  }

  /** So a popped batch is in order of enqueueing, and nobody left behind is older. */
  lemma OldestFirst(cfg: Config, s: Sys, batch: seq<Member>, lost: bool, i: nat, m: Member)
    requires Reachable(cfg, s) && Enabled(cfg, s, PopBatch(batch, lost))
    requires i < |batch| && batch[i].Encoded? && m.Encoded? && m in s.db.queue
    requires m !in batch || exists j :: i < j < |batch| && batch[j] == m
    ensures UnixMilli(batch[i].entry.enqueuedAt) <= UnixMilli(m.entry.enqueuedAt)
  {
    InvReachable(cfg, s);
  }
}

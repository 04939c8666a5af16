/** The shard protocol as a step machine: the scripts above are single steps, and the Go
    code between two Redis calls is cut into separate steps that interleave freely. */
module Protocol {
  import opened Model
  import opened Scripts
  import opened Grouping

  /** The shard that the keys belong to, and the match size n. */
  datatype Config = Config(shard: Shard, n: nat)

  /** Where a worker stands inside popOnce. */
  datatype PC =
    | Idle
    | Parsed(cands: seq<Buffered>)             // popped and decoded
    | Clearing(discarded: seq<Buffered>)       // about to SREM the discarded players
    | Choosing                                 // at the head of the commit loop
    | Committing(group: seq<Buffered>, at: int)   // group chosen at an instant
    | Repushing(group: seq<Buffered>, k: nat)  // k ZADDs of the pipeline done

  datatype Worker =
    | Down
    | Up(startMillis: int, seqNo: nat, buffer: seq<Buffered>, pc: PC)

  /** Requests of the API and of the reconciler between two of their Redis calls. */
  datatype Op =
    | Accepting(id: MatchID, player: string, need: nat)
    | Confirming(id: MatchID)
    | ConfirmRead(id: MatchID, rec: Match)
    | Dissolving(id: MatchID, declined: string)
    | DissolveRead(id: MatchID, declined: string, rec: Match)

  datatype Place = Waiting | InMatch(id: MatchID) | Dropped(from: MatchID)

  /** History: every member that ever joined with its score, where it went, the matches
      for which an accept call saw a full set, those for which a script returned 1, and the
      instant at which the group of a match was chosen. */
  datatype History = History(
    scores: map<Member, int>,
    place: map<Member, Place>,
    full: multiset<MatchID>,
    settled: multiset<MatchID>,
    chosenAt: map<MatchID, int>)

  datatype Sys = Sys(db: Db, worker: Worker, ops: map<nat, Op>, hist: History)

  const INITIAL := Sys(EMPTY_DB, Down, map[], History(map[], map[], multiset{}, multiset{}, map[]))

  datatype Action =
    // clients and other writers
    | Join(e: QueueEntry)
    | Intrude(raw: string, score: int)         // a member that does not decode
    | CancelPlayer(p: string)
    | OtherShards(cancelled: set<string>)      // workers of other bands share the set
    // the worker
    | Start(millis: int)
    | Crash
    | PopBatch(batch: seq<Member>, lost: bool)
    | Check(failed: bool)
    | Clear(failed: bool)
    | Choose(now: int)
    | TryCommit(now: int, fate: Fate)
    | RepushAdd
    | RepushRemove
    | RepushFail
    // the API and the reconciler
    | AcceptCall(k: nat, id: MatchID, p: string)
    | AcceptStep(k: nat)
    | ConfirmReadStep(k: nat)
    | ConfirmStep(k: nat)
    | DeclineCall(k: nat, id: MatchID, p: string)
    | Sweep(k: nat, id: MatchID, deadline: int)
    | DissolveReadStep(k: nat)
    | DissolveStep(k: nat)
    | Abandon(k: nat)

  // ---- what the worker computes locally ------------------------------------------

  /** json.Unmarshal of the first i popped members; the malformed ones are skipped. */
  function Parse(batch: seq<Member>, scores: map<Member, int>, i: nat): (cands: seq<Buffered>)
    requires i <= |batch| && forall m :: m in batch ==> m in scores
  {
    if i == 0 then []
    else
      var before := Parse(batch, scores, i - 1);
      var m := batch[i - 1];
      if m.Encoded? then before + [Buffered(m.entry, m, scores[m])] else before
  }

  /** Those of the first i candidates whose player is (flag) or is not (!flag) in the
      set, in order. */
  function Flagged(cands: seq<Buffered>, cancelled: set<string>, flag: bool, i: nat): (r: seq<Buffered>)
    requires i <= |cands|
  {
    if i == 0 then []
    else
      var before := Flagged(cands, cancelled, flag, i - 1);
      var b := cands[i - 1];
      if (b.entry.playerID in cancelled) == flag then before + [b] else before
  }

  function PlayerSet(bs: seq<Buffered>): set<string> {
    set b | b in bs :: b.entry.playerID
  }

  function NewMatch(cfg: Config, group: seq<Buffered>, now: int, seqNo: nat): Match {
    Match(MatchID(cfg.shard, UnixMilli(now), seqNo), cfg.shard,
          PlayersOf(EntriesOf(group)), EntriesOf(group), Forming, now)
  }

  // ---- guards ---------------------------------------------------------------------

  /** Members are fresh because a member contains its own nanosecond; identifiers are
      fresh because the clock has moved on between two worker lifetimes. */
  predicate Enabled(cfg: Config, s: Sys, a: Action) {
    match a
    case Join(e) => Encoded(e) !in s.hist.scores && e.playerID != ""
    case Intrude(raw, _) => Malformed(raw) !in s.hist.scores
    case CancelPlayer(_) => true
    case OtherShards(_) => true
    case Start(millis) => s.worker.Down? && forall id :: id in s.db.records ==> id.millis < millis
    case Crash => true
    case PopBatch(batch, _) => s.worker.Up? && s.worker.pc.Idle? && PopMin(s.db.queue, POP_BATCH_SIZE, batch)
    case Check(_) => s.worker.Up? && s.worker.pc.Parsed?
    case Clear(_) => s.worker.Up? && s.worker.pc.Clearing?
    case Choose(_) => s.worker.Up? && s.worker.pc.Choosing?
    case TryCommit(now, _) =>
      && s.worker.Up? && s.worker.pc.Committing?
      && s.worker.startMillis <= UnixMilli(now) && s.worker.pc.at <= now
    case RepushAdd => s.worker.Up? && s.worker.pc.Repushing? && s.worker.pc.k < |s.worker.pc.group|
    case RepushRemove => s.worker.Up? && s.worker.pc.Repushing? && s.worker.pc.k == |s.worker.pc.group|
    case RepushFail => s.worker.Up? && s.worker.pc.Repushing?
    case AcceptCall(k, id, _) => k !in s.ops && id in s.db.records
    case AcceptStep(k) => k in s.ops && s.ops[k].Accepting?
    case ConfirmReadStep(k) => k in s.ops && s.ops[k].Confirming? && s.ops[k].id in s.db.records
    case ConfirmStep(k) => k in s.ops && s.ops[k].ConfirmRead?
    case DeclineCall(k, _, p) => k !in s.ops && p != ""
    case Sweep(k, id, deadline) => k !in s.ops && id in s.db.forming && s.db.forming[id] <= deadline
    case DissolveReadStep(k) => k in s.ops && s.ops[k].Dissolving? && s.ops[k].id in s.db.records
    case DissolveStep(k) => k in s.ops && s.ops[k].DissolveRead?
    case Abandon(k) => k in s.ops
  }

  /** Nothing that may go wrong or that others may do is ever shut out: crashes, lost replies,
      failed calls, cancels, joins of new members, other writers, abandoned requests. */
  lemma AnythingMayHappen(cfg: Config, s: Sys, a: Action)
    ensures a.Crash? || a.CancelPlayer? || a.OtherShards? ==> Enabled(cfg, s, a)
    ensures a.Intrude? && Malformed(a.raw) !in s.hist.scores ==> Enabled(cfg, s, a)
    ensures a.Join? && Encoded(a.e) !in s.hist.scores && a.e.playerID != "" ==> Enabled(cfg, s, a)
    ensures a.Abandon? && a.k in s.ops ==> Enabled(cfg, s, a)
    ensures a.AcceptCall? && a.k !in s.ops && a.id in s.db.records ==> Enabled(cfg, s, a)
    ensures a.DeclineCall? && a.k !in s.ops && a.p != "" ==> Enabled(cfg, s, a)
    ensures a.PopBatch? && s.worker.Up? && s.worker.pc.Idle? && PopMin(s.db.queue, POP_BATCH_SIZE, a.batch) ==> Enabled(cfg, s, a)
    ensures a.Check? && s.worker.Up? && s.worker.pc.Parsed? ==> Enabled(cfg, s, a)
    ensures a.Clear? && s.worker.Up? && s.worker.pc.Clearing? ==> Enabled(cfg, s, a)
    ensures a.TryCommit? && s.worker.Up? && s.worker.pc.Committing? ==>
      (Enabled(cfg, s, a) <==> s.worker.startMillis <= UnixMilli(a.now) && s.worker.pc.at <= a.now)
    ensures a.RepushFail? && s.worker.Up? && s.worker.pc.Repushing? ==> Enabled(cfg, s, a)
    ensures a.Start? && s.worker.Down? && (forall id :: id in s.db.records ==> id.millis < a.millis) ==> Enabled(cfg, s, a)
  {
  }

  // ---- steps ----------------------------------------------------------------------

  function Arrive(s: Sys, m: Member, score: int): Sys {
    s.(db := Enqueue(s.db, m, score),
       hist := s.hist.(scores := s.hist.scores[m := score], place := s.hist.place[m := Waiting]))
  }

  function GoTo(s: Sys, pc: PC): Sys
    requires s.worker.Up?
  {
    s.(worker := s.worker.(pc := pc))
  }

  function DoPop(s: Sys, batch: seq<Member>, lost: bool): Sys
    requires s.worker.Up? && PopMin(s.db.queue, POP_BATCH_SIZE, batch)
  {
    var cands := Parse(batch, s.db.queue, |batch|);
    var popped := s.(db := Pop(s.db, batch));
    if lost || cands == [] then GoTo(popped, Idle) else GoTo(popped, Parsed(cands))
  }

  /** SMIsMember; when the read fails nobody counts as cancelled. */
  function DoCheck(s: Sys, failed: bool): Sys
    requires s.worker.Up? && s.worker.pc.Parsed?
  {
    var cands := s.worker.pc.cands;
    var cancelled := if failed then {} else s.db.cancelled;
    var discarded := Flagged(cands, cancelled, true, |cands|);
    s.(worker := s.worker.(
      buffer := s.worker.buffer + Flagged(cands, cancelled, false, |cands|),
      pc := if discarded == [] then Choosing else Clearing(discarded)))
  }

  function DoClear(s: Sys, failed: bool): Sys
    requires s.worker.Up? && s.worker.pc.Clearing?
  {
    var t := GoTo(s, Choosing);
    if failed then t else t.(db := Uncancel(s.db, PlayerSet(s.worker.pc.discarded)))
  }

  function DoChoose(cfg: Config, s: Sys, now: int): Sys
    requires cfg.n >= 1 && s.worker.Up? && s.worker.pc.Choosing?
  {
    match Select(s.worker.buffer, cfg.n, now)
    case NotFound => GoTo(s, Idle)
    case Found(group, remaining) =>
      s.(worker := s.worker.(buffer := remaining, pc := Committing(group, now)))
  }

  /** Where a commit puts its members. */
  function Into(members: set<Member>, id: MatchID): map<Member, Place> {
    map m | m in members :: InMatch(id)
  }

  function DoTryCommit(cfg: Config, s: Sys, now: int, fate: Fate): Sys
    requires s.worker.Up? && s.worker.pc.Committing?
  {
    var w, group := s.worker, s.worker.pc.group;
    var rec := NewMatch(cfg, group, now, w.seqNo + 1);
    var allowed := CommitAllowed(s.db, rec.playerIDs);
    var next :=
      if fate != Replied then Down
      else w.(seqNo := w.seqNo + 1, pc := if allowed then Choosing else Repushing(group, 0));
    if fate == Unsent || !allowed then s.(worker := next)
    else s.(
      db := Commit(s.db, MembersOf(group), rec),
      worker := next,
      hist := s.hist.(place := s.hist.place + Into(Elements(MembersOf(group)), rec.id),
                      chosenAt := s.hist.chosenAt[rec.id := w.pc.at]))
  }

  function DoRepushAdd(s: Sys): Sys
    requires s.worker.Up? && s.worker.pc.Repushing? && s.worker.pc.k < |s.worker.pc.group|
  {
    var Repushing(group, k) := s.worker.pc;
    GoTo(s, Repushing(group, k + 1)).(db := Enqueue(s.db, group[k].member, group[k].score))
  }

  function DoRepushRemove(s: Sys): Sys
    requires s.worker.Up? && s.worker.pc.Repushing?
  {
    GoTo(s, Choosing).(db := Unprocess(s.db, Elements(MembersOf(s.worker.pc.group))))
  }

  function Without(ops: map<nat, Op>, k: nat): map<nat, Op> {
    ops - {k}
  }

  function DoAccept(s: Sys, k: nat): Sys
    requires k in s.ops && s.ops[k].Accepting?
  {
    var Accepting(id, p, need) := s.ops[k];
    if AcceptReply(s.db, id, p) == need
    then s.(db := Accept(s.db, id, p), ops := s.ops[k := Confirming(id)],
            hist := s.hist.(full := s.hist.full + multiset{id}))
    else s.(db := Accept(s.db, id, p), ops := Without(s.ops, k))
  }

  function DoConfirm(s: Sys, k: nat): Sys
    requires k in s.ops && s.ops[k].ConfirmRead?
  {
    var id := s.ops[k].id;
    s.(db := Confirm(s.db, id), ops := Without(s.ops, k),
       hist := if IsForming(s.db, id) then s.hist.(settled := s.hist.settled + multiset{id}) else s.hist)
  }

  function DoDecline(s: Sys, k: nat, id: MatchID, p: string): Sys {
    var t := s.(db := Decline(s.db, id, p));
    if DeclineReply(s.db, id, p) == 1 then t.(ops := s.ops[k := Dissolving(id, p)]) else t
  }

  /** Where a dissolve sends the entries: back to the queue, or out of the system. */
  function Outcome(s: Sys, id: MatchID, declined: string, entries: seq<QueueEntry>): map<Member, Place> {
    map m | m in (set e | e in entries :: Encoded(e)) ::
      if m in Kept(s.db, declined, entries) then Waiting else Dropped(id)
  }

  function DoDissolve(s: Sys, k: nat): Sys
    requires k in s.ops && s.ops[k].DissolveRead?
  {
    var DissolveRead(id, declined, rec) := s.ops[k];
    s.(db := Dissolve(s.db, id, declined, rec.entries), ops := Without(s.ops, k),
       hist := if !IsForming(s.db, id) then s.hist
               else s.hist.(settled := s.hist.settled + multiset{id},
                            place := s.hist.place + Outcome(s, id, declined, rec.entries)))
  }

  function Apply(cfg: Config, s: Sys, a: Action): Sys
    requires cfg.n >= 1 && Enabled(cfg, s, a)
  {
    match a
    case Join(e) => Arrive(s, Encoded(e), UnixMilli(e.enqueuedAt))
    case Intrude(raw, score) => Arrive(s, Malformed(raw), score)
    case CancelPlayer(p) => s.(db := Cancel(s.db, p))
    case OtherShards(cancelled) => s.(db := s.db.(cancelled := cancelled))
    case Start(millis) => s.(db := Drain(s.db), worker := Up(millis, 0, [], Idle))
    case Crash => s.(worker := Down)
    case PopBatch(batch, lost) => DoPop(s, batch, lost)
    case Check(failed) => DoCheck(s, failed)
    case Clear(failed) => DoClear(s, failed)
    case Choose(now) => DoChoose(cfg, s, now)
    case TryCommit(now, fate) => DoTryCommit(cfg, s, now, fate)
    case RepushAdd => DoRepushAdd(s)
    case RepushRemove => DoRepushRemove(s)
    case RepushFail => GoTo(s, Choosing)
    case AcceptCall(k, id, p) => s.(ops := s.ops[k := Accepting(id, p, |s.db.records[id].playerIDs|)])
    case AcceptStep(k) => DoAccept(s, k)
    case ConfirmReadStep(k) => s.(ops := s.ops[k := ConfirmRead(s.ops[k].id, s.db.records[s.ops[k].id])])
    case ConfirmStep(k) => DoConfirm(s, k)
    case DeclineCall(k, id, p) => DoDecline(s, k, id, p)
    case Sweep(k, id, _) => s.(ops := s.ops[k := Dissolving(id, "")])
    case DissolveReadStep(k) =>
      s.(ops := s.ops[k := DissolveRead(s.ops[k].id, s.ops[k].declined, s.db.records[s.ops[k].id])])
    case DissolveStep(k) => DoDissolve(s, k)
    case Abandon(k) => s.(ops := Without(s.ops, k))
  }

  // ---- runs -----------------------------------------------------------------------

  /** trace[i+1] is trace[i] after acts[i]. */
  ghost predicate IsRun(cfg: Config, trace: seq<Sys>, acts: seq<Action>) {
    && cfg.n >= 1
    && |trace| == |acts| + 1
    && forall i :: 0 <= i < |acts| ==> Enabled(cfg, trace[i], acts[i]) && trace[i + 1] == Apply(cfg, trace[i], acts[i])
  }

  ghost predicate Reachable(cfg: Config, s: Sys) {
    exists trace: seq<Sys>, acts: seq<Action> ::
      IsRun(cfg, trace, acts) && trace[0] == INITIAL && trace[|acts|] == s
  }

  lemma ReachStep(cfg: Config, s: Sys, a: Action)
    requires Reachable(cfg, s) && cfg.n >= 1 && Enabled(cfg, s, a)
    ensures Reachable(cfg, Apply(cfg, s, a))
  {
    hide Apply, Enabled;
    var t := Apply(cfg, s, a);
    var trace: seq<Sys>, acts: seq<Action> :|
      IsRun(cfg, trace, acts) && trace[0] == INITIAL && trace[|acts|] == s;
    var longer, more := trace + [t], acts + [a];
    assert IsRun(cfg, longer, more) && longer[0] == INITIAL && longer[|more|] == t;
  }
}

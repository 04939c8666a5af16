/** The worker's loop (popBatch, popOnce, commitMatch and repushGroup of
    internal/worker/worker.go) over the shard's keys. Between two of its Redis calls
    anyone else may act, every call may fail, and still each call is one step of the
    protocol: the program never leaves the reachable states. */
module PopLoop {
  import opened Model
  import opened Order
  import opened Scripts
  import opened Grouping
  import opened Protocol
  import opened Conservation
  import opened Argv
  import opened Redis
  import opened Reading

  const MATCH_TTL := 600

  // ---- one step of the program is one step of the protocol ------------------------------

  lemma PopReaches(cfg: Config, s: Sys, batch: seq<Member>, lost: bool)
    requires Reachable(cfg, s) && cfg.n >= 1 && s.worker.Up? && s.worker.pc.Idle? && PopMin(s.db.queue, POP_BATCH_SIZE, batch)
    ensures Reachable(cfg, DoPop(s, batch, lost))
  {
    hide Reachable, DoPop, PopMin;
    ReachStep(cfg, s, PopBatch(batch, lost));
  }

  lemma CheckReaches(cfg: Config, s: Sys, failed: bool)
    requires Reachable(cfg, s) && cfg.n >= 1 && s.worker.Up? && s.worker.pc.Parsed?
    ensures Reachable(cfg, DoCheck(s, failed))
  {
    hide Reachable, DoCheck;
    ReachStep(cfg, s, Check(failed));
  }

  lemma ClearReaches(cfg: Config, s: Sys, failed: bool)
    requires Reachable(cfg, s) && cfg.n >= 1 && s.worker.Up? && s.worker.pc.Clearing?
    ensures Reachable(cfg, DoClear(s, failed))
  {
    hide Reachable, DoClear;
    ReachStep(cfg, s, Clear(failed));
  }

  lemma ChooseReaches(cfg: Config, s: Sys, now: int)
    requires Reachable(cfg, s) && cfg.n >= 1 && s.worker.Up? && s.worker.pc.Choosing?
    ensures Reachable(cfg, DoChoose(cfg, s, now))
  {
    hide Reachable, DoChoose;
    ReachStep(cfg, s, Choose(now));
  }

  lemma CommitReaches(cfg: Config, s: Sys, now: int, fate: Fate)
    requires Reachable(cfg, s) && cfg.n >= 1 && s.worker.Up? && s.worker.pc.Committing?
    requires s.worker.startMillis <= UnixMilli(now) && s.worker.pc.at <= now
    ensures Reachable(cfg, DoTryCommit(cfg, s, now, fate))
  {
    hide Reachable, DoTryCommit;
    ReachStep(cfg, s, TryCommit(now, fate));
  }

  lemma RepushReaches(cfg: Config, s: Sys)
    requires Reachable(cfg, s) && cfg.n >= 1 && s.worker.Up? && s.worker.pc.Repushing?
    ensures s.worker.pc.k < |s.worker.pc.group| ==> Reachable(cfg, DoRepushAdd(s))
    ensures s.worker.pc.k == |s.worker.pc.group| ==> Reachable(cfg, DoRepushRemove(s))
    ensures Reachable(cfg, GoTo(s, Choosing))
  {
    hide Reachable, DoRepushAdd, DoRepushRemove, GoTo;
    if s.worker.pc.k < |s.worker.pc.group| {
      ReachStep(cfg, s, RepushAdd);
    } else if s.worker.pc.k == |s.worker.pc.group| {
      ReachStep(cfg, s, RepushRemove);
    }
    ReachStep(cfg, s, RepushFail);
  }

  /** What only grows: the queue while nobody pops it, and the matches. */
  ghost predicate Onward(a: Db, b: Db) {
    a.queue.Keys <= b.queue.Keys && RecordsStay(a, b)
  }

  ghost predicate RecordsStay(a: Db, b: Db) {
    forall id :: id in a.records ==> id in b.records && SameMatch(b.records[id], a.records[id])
  }

  lemma OnwardRecords(a: Db, b: Db, c: Db)
    requires RecordsStay(a, b) && Onward(b, c)
    ensures RecordsStay(a, c)
  {
  }

  lemma OnwardReflexive(db: Db)
    ensures Onward(db, db)
  {
  }

  lemma OnwardTransitive(a: Db, b: Db, c: Db)
    requires Onward(a, b) && Onward(b, c)
    ensures Onward(a, c)
  {
  }

  lemma OnwardQueue(a: Db, b: Db)
    requires Onward(a, b)
    ensures a.queue.Keys <= b.queue.Keys
  {
  }

  /** Nobody else takes anything out of the queue, or touches what is being processed. */
  lemma OthersOnward(cfg: Config, s: Sys, a: Action)
    requires cfg.n >= 1 && Enabled(cfg, s, a) && !ByWorker(a)
    ensures var t := Apply(cfg, s, a);
      t.worker == s.worker && t.db.processing == s.db.processing && Onward(s.db, t.db)
  {
    match a
    case Join(e) =>
    case Intrude(raw, score) =>
    case ConfirmStep(k) => assert Onward(s.db, DoConfirm(s, k).db);
    case DissolveStep(k) => assert Onward(s.db, DoDissolve(s, k).db);
    case _ =>
      if Opens(a) {
        OpenFrame(cfg, s, a);
      } else {
        ServeFrame(cfg, s, a);
      }
  }

  // ---- what a call to popOnce does with the entries ----------------------------------------

  /** The groups that were committed, with the matches they became; pushed back; left in
      processing by a failed push back; in hand when a commit call failed; and the instant
      of the last selection. */
  datatype Deals = Deals(
    committed: seq<seq<Buffered>>, ids: seq<MatchID>, repushed: seq<seq<Buffered>>,
    stuck: seq<seq<Buffered>>, inHand: seq<Buffered>, last: int)

  const NO_DEALS := Deals([], [], [], [], [], 0)

  ghost function Bag(groups: seq<seq<Buffered>>): multiset<Buffered> {
    if groups == [] then multiset{} else Bag(groups[..|groups| - 1]) + multiset(groups[|groups| - 1])
  }

  ghost function AllMembers(groups: seq<seq<Buffered>>): set<Member> {
    if groups == [] then {} else AllMembers(groups[..|groups| - 1]) + Elements(MembersOf(groups[|groups| - 1]))
  }

  lemma OneMore(groups: seq<seq<Buffered>>, g: seq<Buffered>)
    ensures Bag(groups + [g]) == Bag(groups) + multiset(g)
    ensures AllMembers(groups + [g]) == AllMembers(groups) + Elements(MembersOf(g))
  {
    assert (groups + [g])[..|groups|] == groups;
  }

  /** Nothing lost, nothing duplicated. */
  ghost predicate Accounted(start: seq<Buffered>, buffer: seq<Buffered>, d: Deals) {
    multiset(start) == multiset(buffer) + Dealt(d)
  }

  ghost function Dealt(d: Deals): multiset<Buffered> {
    Bag(d.committed) + Bag(d.repushed) + Bag(d.stuck) + multiset(d.inHand)
  }

  ghost predicate GroupsOf(n: nat, d: Deals) {
    && (forall i :: 0 <= i < |d.committed| ==> |d.committed[i]| == n)
    && (forall i :: 0 <= i < |d.repushed| ==> |d.repushed[i]| == n)
    && (forall i :: 0 <= i < |d.stuck| ==> |d.stuck[i]| == n)
    && (d.inHand == [] || |d.inHand| == n)
  }

  /** Each committed group is a stored match, in the group's order; each group that was
      pushed back is in the queue. */
  ghost predicate Delivered(db: Db, d: Deals) {
    && |d.ids| == |d.committed|
    && (forall i :: 0 <= i < |d.ids| ==> d.ids[i] in db.records && db.records[d.ids[i]].entries == EntriesOf(d.committed[i]))
    && AllMembers(d.repushed) <= db.queue.Keys
  }

  ghost function Finished(d: Deals): set<Member> {
    AllMembers(d.committed) + AllMembers(d.repushed)
  }

  lemma DeliveredOnward(a: Db, b: Db, d: Deals)
    requires Delivered(a, d) && Onward(a, b)
    ensures Delivered(b, d)
  {
  }

  /** The selection leaves the others in their order. */
  lemma RemainingInOrder(buffer: seq<Buffered>, n: nat, now: int)
    requires n >= 1 && Select(buffer, n, now).Found?
    ensures Subsequence(Select(buffer, n, now).remaining, buffer)
  {
    var picks, rest := GroupPositions(NearHead(buffer, now), n, buffer, |buffer|);
    assert buffer[..|buffer|] == buffer;
  }

  // ---- the books, round by round ------------------------------------------------------------

  /** Everything that holds of the books between two rounds of the loop. */
  ghost predicate Books(n: nat, start: seq<Buffered>, first: Db, buffer: seq<Buffered>, db: Db, d: Deals) {
    && Accounted(start, buffer, d) && Subsequence(buffer, start)
    && GroupsOf(n, d) && Delivered(db, d) && Onward(first, db)
    && d.inHand == [] && db.processing.Keys == first.processing.Keys - Finished(d)
  }

  lemma BooksInitially(n: nat, start: seq<Buffered>, db: Db, now: int)
    ensures Books(n, start, db, start, db, Deals([], [], [], [], [], now))
  {
    hide Subsequence, Onward, Accounted;
    var d := Deals([], [], [], [], [], now);
    SubsequenceReflexive(start);
    OnwardReflexive(db);
    NothingDealt(start, d);
  }

  lemma NothingDealt(start: seq<Buffered>, d: Deals)
    requires d.committed == [] && d.repushed == [] && d.stuck == [] && d.inHand == []
    ensures Accounted(start, start, d)
  {
    assert Dealt(d) == multiset{};
  }

  lemma BooksOnward(n: nat, start: seq<Buffered>, first: Db, buffer: seq<Buffered>, db: Db, later: Db, d: Deals, now: int)
    requires Books(n, start, first, buffer, db, d) && Onward(db, later) && later.processing == db.processing
    ensures Books(n, start, first, buffer, later, d.(last := now))
  {
    hide Subsequence;
    OnwardTransitive(first, db, later);
    DeliveredOnward(db, later, d);
  }

  lemma BooksLater(n: nat, start: seq<Buffered>, first: Db, buffer: seq<Buffered>, db: Db, d: Deals, now: int)
    requires Books(n, start, first, buffer, db, d)
    ensures Books(n, start, first, buffer, db, d.(last := now))
  {
  }

  /** What a round takes from the buffer. */
  ghost predicate Chosen(n: nat, buffer: seq<Buffered>, group: seq<Buffered>, remaining: seq<Buffered>) {
    multiset(buffer) == multiset(group) + multiset(remaining) && |group| == n && Subsequence(remaining, buffer)
  }

  lemma SelectChosen(buffer: seq<Buffered>, n: nat, now: int)
    requires n >= 1 && Select(buffer, n, now).Found?
    ensures Chosen(n, buffer, Select(buffer, n, now).group, Select(buffer, n, now).remaining)
    ensures |Select(buffer, n, now).remaining| < |buffer|
  {
    hide Subsequence, Select;
    SelectSound(buffer, n, now);
    RemainingInOrder(buffer, n, now);
  }

  lemma CommitOnward(db: Db, members: seq<Member>, rec: Match)
    requires rec.id !in db.records
    ensures Onward(db, Scripts.Commit(db, members, rec))
  {
  }

  lemma DeliveredMore(db: Db, d: Deals, group: seq<Buffered>, rec: Match)
    requires Delivered(db, d) && rec.id in db.records && db.records[rec.id] == rec && rec.entries == EntriesOf(group)
    ensures Delivered(db, d.(committed := d.committed + [group], ids := d.ids + [rec.id]))
  {
    hide EntriesOf, AllMembers;
  }

  lemma BooksCommitted(
      n: nat, start: seq<Buffered>, first: Db, buffer: seq<Buffered>, db: Db, d: Deals,
      group: seq<Buffered>, remaining: seq<Buffered>, rec: Match)
    requires Books(n, start, first, buffer, db, d) && Chosen(n, buffer, group, remaining)
    requires rec.id !in db.records && rec.entries == EntriesOf(group) && CommitAllowed(db, rec.playerIDs)
    ensures Books(n, start, first, remaining, Scripts.Commit(db, MembersOf(group), rec),
      d.(committed := d.committed + [group], ids := d.ids + [rec.id]))
  {
    hide Subsequence, EntriesOf, MembersOf, Onward, CommitAllowed, Accounted, Bag, Delivered;
    var later := Scripts.Commit(db, MembersOf(group), rec);
    CommitOnward(db, MembersOf(group), rec);
    OnwardTransitive(first, db, later);
    DeliveredOnward(db, later, d);
    SubsequenceTransitive(remaining, buffer, start);
    OneMore(d.committed, group);
    DeliveredMore(later, d, group, rec);
    Settled(start, buffer, d, group, remaining, d.(committed := d.committed + [group], ids := d.ids + [rec.id]));
  }

  lemma BooksRepushed(
      n: nat, start: seq<Buffered>, first: Db, buffer: seq<Buffered>, db: Db, later: Db, d: Deals,
      group: seq<Buffered>, remaining: seq<Buffered>)
    requires Books(n, start, first, buffer, db, d) && Chosen(n, buffer, group, remaining)
    requires Onward(db, later) && Elements(MembersOf(group)) <= later.queue.Keys
    requires later.processing == db.processing - Elements(MembersOf(group))
    ensures Books(n, start, first, remaining, later, d.(repushed := d.repushed + [group]))
  {
    hide Subsequence, MembersOf, Onward, Accounted, Bag;
    OnwardTransitive(first, db, later);
    DeliveredOnward(db, later, d);
    OnwardQueue(db, later);
    SubsequenceTransitive(remaining, buffer, start);
    OneMore(d.repushed, group);
    Settled(start, buffer, d, group, remaining, d.(repushed := d.repushed + [group]));
  }

  lemma BooksStuck(
      n: nat, start: seq<Buffered>, first: Db, buffer: seq<Buffered>, db: Db, later: Db, d: Deals,
      group: seq<Buffered>, remaining: seq<Buffered>)
    requires Books(n, start, first, buffer, db, d) && Chosen(n, buffer, group, remaining)
    requires Onward(db, later) && later.processing == db.processing
    ensures Books(n, start, first, remaining, later, d.(stuck := d.stuck + [group]))
  {
    hide Subsequence, Onward, Accounted, Bag;
    OnwardTransitive(first, db, later);
    DeliveredOnward(db, later, d);
    SubsequenceTransitive(remaining, buffer, start);
    OneMore(d.stuck, group);
    Settled(start, buffer, d, group, remaining, d.(stuck := d.stuck + [group]));
  }

  /** The entries of the chosen group move from the buffer to one of the books. */
  lemma Settled(start: seq<Buffered>, buffer: seq<Buffered>, d: Deals, group: seq<Buffered>, remaining: seq<Buffered>, e: Deals)
    requires Accounted(start, buffer, d) && multiset(buffer) == multiset(group) + multiset(remaining)
    requires Dealt(e) == Dealt(d) + multiset(group)
    ensures Accounted(start, remaining, e)
  {
    hide Dealt;
    assert multiset(group) + multiset(remaining) + Dealt(d) == multiset(remaining) + (Dealt(d) + multiset(group));
  }

  /** The end: as between two rounds, or with a group in hand whose commit may or may not
      have run. */
  ghost predicate Closed(n: nat, start: seq<Buffered>, first: Db, buffer: seq<Buffered>, db: Db, d: Deals, failed: bool) {
    && Accounted(start, buffer, d) && Subsequence(buffer, start)
    && GroupsOf(n, d) && Delivered(db, d) && Onward(first, db)
    && (if failed then |d.inHand| == n else d.inHand == [])
    && (var rest := first.processing.Keys - Finished(d);
        db.processing.Keys == rest || db.processing.Keys == rest - Elements(MembersOf(d.inHand)))
  }

  lemma BooksClosed(n: nat, start: seq<Buffered>, first: Db, buffer: seq<Buffered>, db: Db, d: Deals)
    requires Books(n, start, first, buffer, db, d)
    ensures Closed(n, start, first, buffer, db, d, false)
  {
  }

  lemma BooksFailed(
      n: nat, start: seq<Buffered>, first: Db, buffer: seq<Buffered>, db: Db, later: Db, d: Deals,
      group: seq<Buffered>, remaining: seq<Buffered>, rec: Match)
    requires Books(n, start, first, buffer, db, d) && Chosen(n, buffer, group, remaining)
    requires rec.id !in db.records
    requires later == db || later == Scripts.Commit(db, MembersOf(group), rec)
    ensures Closed(n, start, first, remaining, later, d.(inHand := group), true)
  {
    hide Subsequence, MembersOf, Onward, CommitAllowed, Accounted, Bag;
    Settled(start, buffer, d, group, remaining, d.(inHand := group));
    CommitOnward(db, MembersOf(group), rec);
    if later != db {
      OnwardTransitive(first, db, later);
      DeliveredOnward(db, later, d);
    }
    SubsequenceTransitive(remaining, buffer, start);
  }

  /** How the calls of one popOnce end: commit call number i, and the command before which
      push back number i breaks off; and whether nobody else acts meanwhile. */
  datatype Faults = Faults(pop: Fate, check: bool, clear: bool, commit: nat -> Fate, cut: nat -> nat, alone: bool)

  ghost predicate Unflagged(cancelled: set<string>, group: seq<Buffered>) {
    forall p :: p in PlayersOf(EntriesOf(group)) ==> p !in cancelled
  }

  /** Groups without a cancelled player were committed, groups with one were not. */
  ghost predicate Judged(cancelled: set<string>, d: Deals) {
    && (forall i :: 0 <= i < |d.committed| ==> Unflagged(cancelled, d.committed[i]))
    && (forall i :: 0 <= i < |d.repushed| ==> !Unflagged(cancelled, d.repushed[i]))
    && (forall i :: 0 <= i < |d.stuck| ==> !Unflagged(cancelled, d.stuck[i]))
  }

  lemma NothingJudged(cancelled: set<string>, d: Deals)
    requires d.committed == [] && d.repushed == [] && d.stuck == []
    ensures Judged(cancelled, d)
  {
  }

  lemma JudgedLater(cancelled: set<string>, d: Deals, now: int)
    ensures Judged(cancelled, d) <==> Judged(cancelled, d.(last := now))
  {
  }

  lemma CommitJudges(db: Db, group: seq<Buffered>, rec: Match)
    requires rec.playerIDs == PlayersOf(EntriesOf(group))
    ensures CommitAllowed(db, rec.playerIDs) <==> Unflagged(db.cancelled, group)
    ensures Scripts.Commit(db, MembersOf(group), rec).cancelled == db.cancelled
    ensures Scripts.Commit(db, MembersOf(group), rec).queue == db.queue
  {
  }

  // ---- one turn ----------------------------------------------------------------------------

  /** One popOnce: the members that the script moved, those that were read and decoded,
      the players seen as cancelled, and what the commit loop did. */
  datatype Turn = Turn(moved: seq<Member>, cands: seq<Buffered>, cancelled: set<string>, deals: Deals)

  ghost function Discarded(t: Turn): seq<Buffered> {
    Flagged(t.cands, t.cancelled, true, |t.cands|)
  }

  /** The players whose candidates were seen as cancelled. */
  ghost function SeenCancelled(t: Turn): set<string> {
    set b | b in t.cands && b.entry.playerID in t.cancelled :: b.entry.playerID
  }

  /** Every entry that was buffered or popped is still buffered, discarded, committed,
      pushed back, stuck or in hand, once; those still buffered kept their order; the
      discarded ones are those of the cancelled players; and processing has lost exactly the
      committed and the pushed back members. */
  ghost predicate TurnClosed(n: nat, buffer: seq<Buffered>, first: Db, out: seq<Buffered>, db: Db, t: Turn, failed: bool) {
    && multiset(buffer) + multiset(t.cands) == multiset(out) + multiset(Discarded(t)) + Dealt(t.deals)
    && Subsequence(out, buffer + t.cands)
    && SiftedInOrder(t.cands, t.cancelled, true, Discarded(t))
    && GroupsOf(n, t.deals) && Delivered(db, t.deals) && RecordsStay(first, db)
    && (if failed then |t.deals.inHand| == n else t.deals.inHand == [])
    && (var rest := first.processing.Keys + Elements(t.moved) - Finished(t.deals);
        db.processing.Keys == rest || db.processing.Keys == rest - Elements(MembersOf(t.deals.inHand)))
  }

  /** The oldest two dozen members are popped, and if the reply comes every decodable one of
      them is a candidate, once and in order. */
  ghost predicate PoppedAndRead(f: Faults, first: Db, t: Turn) {
    && (if f.pop == Unsent then t.moved == []
        else PopMin(first.queue, POP_BATCH_SIZE, t.moved) && |t.moved| == if |first.queue| < 24 then |first.queue| else 24)
    && (forall m :: m in t.moved ==> m in first.queue)
    && (if f.pop == Replied then ReadOnce(t.moved, first.queue, t.cands) else t.cands == [])
  }

  /** A turn that read nothing: what the script moved is in processing, and that is all. */
  ghost predicate OnlyMoved(first: Db, db: Db, t: Turn) {
    && db == first.(queue := first.queue - Elements(t.moved), processing := db.processing)
    && db.processing.Keys == first.processing.Keys + Elements(t.moved)
  }

  /** With nobody else acting: who was cancelled is seen, and their flags are cleared; the
      groups without them are committed, the others are not; and if all were committed the
      queue has lost what was popped and nothing else. */
  ghost predicate AloneTurn(f: Faults, first: Db, db: Db, t: Turn) {
    && (!f.check ==> t.cancelled == first.cancelled)
    && db.cancelled == first.cancelled - (if f.clear then {} else SeenCancelled(t))
    && Judged(db.cancelled, t.deals)
    && (t.deals.repushed == [] && t.deals.stuck == [] ==> db.queue == first.queue - Elements(t.moved))
  }

  /** All that one popOnce guarantees. */
  ghost predicate TurnGuarantee(
      n: nat, f: Faults, buffer: seq<Buffered>, first: Db, out: seq<Buffered>, db: Db, t: Turn, failed: bool)
    requires n >= 1
  {
    && PoppedAndRead(f, first, t)
    && (f.check ==> t.cancelled == {})
    && ((forall i :: f.commit(i) == Replied) ==> !failed)
    && ((forall i :: f.cut(i) > n) ==> t.deals.stuck == [])
    && (t.cands == [] ==> out == buffer && !failed && OnlyMoved(first, db, t))
    && (t.cands != [] ==> TurnClosed(n, buffer, first, out, db, t, failed))
    && (t.cands != [] && !failed ==>
          Select(out, n, t.deals.last).NotFound? && Prompt(n, buffer + t.cands, out, t.deals.last))
    && (t.cands != [] && f.alone ==> AloneTurn(f, first, db, t))
  }

  lemma TurnEnds(n: nat, buffer: seq<Buffered>, first: Db, last: Db, out: seq<Buffered>, db: Db, t: Turn, failed: bool)
    requires Closed(n, buffer + Flagged(t.cands, t.cancelled, false, |t.cands|), last, out, db, t.deals, failed)
    requires last.processing.Keys == first.processing.Keys + Elements(t.moved) && RecordsStay(first, last)
    ensures TurnClosed(n, buffer, first, out, db, t, failed)
  {
    hide Subsequence, GroupsOf, Delivered, Onward, Dealt, Flagged, RecordsStay, SiftedInOrder;
    var kept := Flagged(t.cands, t.cancelled, false, |t.cands|);
    var discarded := Discarded(t);
    FlaggedIsSifted(t.cands, t.cancelled, true);
    OnwardRecords(first, last, db);
    KeptInOrder(buffer, t.cands, t.cancelled, out);
    FlaggedBag(t.cands, t.cancelled, |t.cands|);
    assert t.cands[..|t.cands|] == t.cands;
    assert multiset(buffer + kept) == multiset(buffer) + multiset(kept);
    BagSum(multiset(buffer), multiset(kept), multiset(discarded), multiset(out), Dealt(t.deals));
  }

  lemma KeptInOrder(buffer: seq<Buffered>, cands: seq<Buffered>, cancelled: set<string>, out: seq<Buffered>)
    requires Subsequence(out, buffer + Flagged(cands, cancelled, false, |cands|))
    ensures Subsequence(out, buffer + cands)
  {
    hide Flagged, Subsequence;
    var kept := Flagged(cands, cancelled, false, |cands|);
    FlaggedIsSifted(cands, cancelled, false);
    SiftedMeans(cands, cancelled, false, kept);
    SubsequenceAfter(buffer, kept, cands);
    SubsequenceTransitive(out, buffer + kept, buffer + cands);
  }

  lemma BagSum(a: multiset<Buffered>, k: multiset<Buffered>, d: multiset<Buffered>, o: multiset<Buffered>, e: multiset<Buffered>)
    requires a + k == o + e
    ensures a + (k + d) == o + d + e
  {
    assert a + (k + d) == (a + k) + d;
    assert o + d + e == (o + e) + d;
  }

  lemma FlaggedLast(cands: seq<Buffered>, cancelled: set<string>, i: nat)
    requires 0 < i <= |cands|
    ensures var no, yes := Flagged(cands, cancelled, false, i - 1), Flagged(cands, cancelled, true, i - 1);
      if cands[i - 1].entry.playerID in cancelled
      then Flagged(cands, cancelled, false, i) == no && Flagged(cands, cancelled, true, i) == yes + [cands[i - 1]]
      else Flagged(cands, cancelled, false, i) == no + [cands[i - 1]] && Flagged(cands, cancelled, true, i) == yes
  {
  }

  lemma {:induction false} FlaggedBag(cands: seq<Buffered>, cancelled: set<string>, i: nat)
    requires i <= |cands|
    ensures multiset(cands[..i]) == multiset(Flagged(cands, cancelled, false, i)) + multiset(Flagged(cands, cancelled, true, i))
  {
    if i > 0 {
      FlaggedBag(cands, cancelled, i - 1);
      FlaggedLast(cands, cancelled, i);
      PrefixLast(cands, i);
      hide Flagged;
      BagMore(Flagged(cands, cancelled, false, i - 1), Flagged(cands, cancelled, true, i - 1), cands[..i - 1], cands[i - 1],
              Flagged(cands, cancelled, false, i), Flagged(cands, cancelled, true, i), cands[..i]);
    }
  }

  /** With ratings of one band inside the configured range, too few entries are left for a
      match or the head had waited less than fifty seconds at the last selection (the bound
      on the wait, thirteen years, is that of the window's 32 bits). */
  ghost predicate Prompt(n: nat, seen: seq<Buffered>, out: seq<Buffered>, last: int) {
    OneBand(seen) && |out| >= n && out != [] && last - out[0].entry.enqueuedAt <= LONGEST_EXACT_WAIT as int * SECOND
    ==> last - out[0].entry.enqueuedAt < 50 * SECOND
  }

  lemma FiftySecondBound(n: nat, buffer: seq<Buffered>, first: Db, out: seq<Buffered>, db: Db, t: Turn)
    requires n >= 1 && TurnClosed(n, buffer, first, out, db, t, false)
    requires Select(out, n, t.deals.last).NotFound?
    ensures Prompt(n, buffer + t.cands, out, t.deals.last)
  {
    hide Select, Delivered, GroupsOf, Finished, Subsequence, SiftedInOrder, Dealt, Flagged, RecordsStay, OneBand;
    assert multiset(out) <= multiset(buffer + t.cands);
    if !Prompt(n, buffer + t.cands, out, t.deals.last) {
      OneBandStays(buffer + t.cands, out);
      FiftySeconds(out, n, t.deals.last);
    }
  }

  lemma OneBandStays(seen: seq<Buffered>, out: seq<Buffered>)
    requires OneBand(seen) && out != [] && multiset(out) <= multiset(seen)
    ensures OneBand(out)
  {
    forall b | b in out
      ensures b in seen
    {
      assert b in multiset(out);
    }
    assert out[0] in out;
  }

  lemma StartReaches(cfg: Config, s: Sys, millis: int)
    requires Reachable(cfg, s) && cfg.n >= 1 && s.worker.Down? && forall id :: id in s.db.records ==> id.millis < millis
    ensures Reachable(cfg, s.(db := Drain(s.db), worker := Up(millis, 0, [], Idle)))
  {
    hide Reachable, Drain;
    ReachStep(cfg, s, Start(millis));
  }

  // ---- turn after turn ------------------------------------------------------------------------

  /** A turn with the buffer and the keys before and after it. */
  datatype Round = Round(buffer: seq<Buffered>, first: Db, out: seq<Buffered>, db: Db, turn: Turn, failed: bool)

  /** What happens between two turns: others act, unless nobody else is there. */
  ghost predicate Between(a: Db, b: Db, alone: bool) {
    b.processing == a.processing && Onward(a, b) && (alone ==> b == a)
  }

  /** The buffer and the keys after k turns. */
  ghost function BufferAfter(log: seq<Round>, k: nat): seq<Buffered>
    requires k <= |log|
  {
    if k == 0 then [] else log[k - 1].out
  }

  ghost function KeysAfter(start: Db, log: seq<Round>, k: nat): Db
    requires k <= |log|
  {
    if k == 0 then start else log[k - 1].db
  }

  /** Turn k of a session: others may act, and then it keeps its guarantees. */
  ghost predicate IsTurn(n: nat, f: Faults, buffer: seq<Buffered>, db: Db, r: Round)
    requires n >= 1
  {
    && r.buffer == buffer && Between(db, r.first, f.alone)
    && TurnGuarantee(n, f, r.buffer, r.first, r.out, r.db, r.turn, r.failed)
  }

  /** Turns one after the other, from an empty buffer and the keys that the drain left; only
      the last may have failed. */
  ghost predicate IsSession(n: nat, faults: nat -> Faults, start: Db, log: seq<Round>)
    requires n >= 1
  {
    && (forall k :: 0 <= k < |log| ==> IsTurn(n, faults(k), BufferAfter(log, k), KeysAfter(start, log, k), log[k]))
    && (forall k :: 0 <= k < |log| - 1 ==> !log[k].failed)
  }

  lemma NoTurnYet(n: nat, faults: nat -> Faults, start: Db)
    requires n >= 1
    ensures IsSession(n, faults, start, [])
  {
  }

  lemma AfterFewer(start: Db, log: seq<Round>, r: Round, k: nat)
    requires k <= |log|
    ensures BufferAfter(log + [r], k) == BufferAfter(log, k) && KeysAfter(start, log + [r], k) == KeysAfter(start, log, k)
    ensures (log + [r])[k] == if k < |log| then log[k] else r
  {
  }

  lemma SessionGrows(n: nat, faults: nat -> Faults, start: Db, log: seq<Round>, r: Round)
    requires n >= 1 && IsSession(n, faults, start, log) && (log != [] ==> !log[|log| - 1].failed)
    requires IsTurn(n, faults(|log|), BufferAfter(log, |log|), KeysAfter(start, log, |log|), r)
    ensures IsSession(n, faults, start, log + [r])
  {
    hide IsTurn, BufferAfter, KeysAfter;
    var more := log + [r];
    forall k | 0 <= k < |more|
      ensures IsTurn(n, faults(k), BufferAfter(more, k), KeysAfter(start, more, k), more[k])
    {
      AfterFewer(start, log, r, k);
      if k < |log| {
        assert IsTurn(n, faults(k), BufferAfter(log, k), KeysAfter(start, log, k), log[k]);
      }
    }
  }

  ghost predicate SessionEnds(start: Db, log: seq<Round>, buffer: seq<Buffered>, db: Db, failed: bool) {
    && buffer == BufferAfter(log, |log|) && db == KeysAfter(start, log, |log|)
    && failed == (log != [] && log[|log| - 1].failed)
  }

  // ---- the worker --------------------------------------------------------------------------

  class MatchMaker {
    const cfg: Config
    const keys: ShardKeys
    var seqNo: nat                 // matchSeq
    var clock: int
    var worker: Worker             // where this process stands in the protocol
    var ops: map<nat, Op>          // the requests of everyone else in flight
    var hist: History

    function Sees(): Sys
      reads this, keys
    {
      Sys(keys.View(), worker, ops, hist)
    }

    ghost predicate Valid()
      reads this, keys
    {
      && cfg.n >= 1
      && Reachable(cfg, Sees())
      && (worker.Up? ==> worker.seqNo == seqNo && worker.startMillis <= UnixMilli(clock))
    }

    /** A process that has not started, beside a shard in some reachable state. */
    constructor (cfg: Config, keys: ShardKeys, clock: int, ops: map<nat, Op>, hist: History)
      requires cfg.n >= 1 && Reachable(cfg, Sys(keys.View(), Down, ops, hist))
      ensures Valid() && worker.Down? && this.cfg == cfg && this.keys == keys && this.clock == clock
    {
      this.cfg, this.keys, this.clock, this.ops, this.hist := cfg, keys, clock, ops, hist;
      this.worker, this.seqNo := Down, 0;
    }

    /** The process stands at pc with this buffer. */
    ghost predicate At(buffer: seq<Buffered>, pc: PC)
      reads this
    {
      worker.Up? && worker.buffer == buffer && worker.pc == pc
    }

    /** Between two calls anyone else takes any number of steps, unless nobody else is there. */
    method Interfere(alone: bool)
      requires Valid()
      modifies this`ops, this`hist, keys
      ensures Valid()
      ensures keys.processing == old(keys.processing) && Onward(old(keys.View()), keys.View())
      ensures alone ==> keys.View() == old(keys.View())
    {
      hide Reachable, Onward, Enabled, Apply;
      ghost var was := keys.View();
      OnwardReflexive(was);
      if alone {
        return;
      }
      var rounds: nat :| true;
      while rounds > 0
        invariant Valid() && keys.processing == was.processing && Onward(was, keys.View())
      {
        var a: Action := *;
        var s := Sees();
        if !ByWorker(a) && Enabled(cfg, s, a) {
          var t := Apply(cfg, s, a);
          OthersOnward(cfg, s, a);
          ReachStep(cfg, s, a);
          OnwardTransitive(was, s.db, t.db);
          keys.Become(t.db);
          ops, hist := t.ops, t.hist;
          assert Sees() == t;
        }
        rounds := rounds - 1;
      }
    }

    /** time.Now(): the clock does not run backwards. */
    method Now() returns (now: int)
      modifies this`clock
      ensures now == clock >= old(clock)
    {
      now := *;
      if now < clock {
        now := clock;
      }
      clock := now;
    }

    /** popBatch and the decoding. A call that fails, whether or not the script ran, looks
        like an empty queue; moved is what the script moved. */
    method PopBatch(fate: Fate, ghost buffer: seq<Buffered>) returns (cands: seq<Buffered>, ghost moved: seq<Member>)
      requires Valid() && At(buffer, Idle)
      modifies this`worker, keys
      ensures Valid() && At(buffer, if cands == [] then Idle else Parsed(cands))
      ensures if fate == Unsent then moved == [] else PopMin(old(keys.queue), POP_BATCH_SIZE, moved)
      ensures forall m :: m in moved ==> m in old(keys.queue)
      ensures cands == if fate == Replied then Parse(moved, old(keys.queue), |moved|) else []
      ensures keys.View() == Pop(old(keys.View()), moved)
    {
      hide Reachable, PopMin, Pop, Parse;
      PopNothing(keys.View());
      if fate == Unsent {
        return [], [];
      }
      ghost var s := Sees();
      var batch, scores := keys.PopToProcessingScript(POP_BATCH_SIZE);
      PopReaches(cfg, s, batch, fate != Replied);
      keys.PopMinSound(scores, POP_BATCH_SIZE, batch);
      moved := batch;
      cands := Decode(batch, scores);
      if fate != Replied {
        cands := [];
      }
      if cands != [] {
        worker := worker.(pc := Parsed(cands));
      }
      assert Sees() == DoPop(s, batch, fate != Replied);
    }

    lemma PopNothing(db: Db)
      ensures Pop(db, []) == db
    {
    }

    method Decode(batch: seq<Member>, scores: map<Member, int>) returns (cands: seq<Buffered>)
      requires forall m :: m in batch ==> m in scores
      ensures cands == Parse(batch, scores, |batch|)
    {
      cands := [];
      for i := 0 to |batch|
        invariant cands == Parse(batch, scores, i)
      {
        var m := batch[i];
        if m.Encoded? {
          cands := cands + [Buffered(m.entry, m, scores[m])];
        }
      }
    }

    /** SMISMEMBER over the candidates; when the call fails nobody counts as cancelled. */
    method CheckCancelled(failed: bool, cands: seq<Buffered>, ghost buffer: seq<Buffered>)
      returns (flags: seq<bool>, ghost cancelled: set<string>)
      requires Valid() && At(buffer, Parsed(cands))
      modifies this`worker
      ensures Valid()
      ensures cancelled == if failed then {} else keys.cancelled
      ensures |flags| == |cands| && forall i :: 0 <= i < |cands| ==> (flags[i] <==> cands[i].entry.playerID in cancelled)
      ensures var discarded := Flagged(cands, cancelled, true, |cands|);
        At(buffer + Flagged(cands, cancelled, false, |cands|), if discarded == [] then Choosing else Clearing(discarded))
    {
      hide Reachable, Flagged;
      if failed {
        flags := seq(|cands|, _ => false);
        cancelled := {};
      } else {
        flags := keys.SMIsMember(PlayersOf(EntriesOf(cands)));
        cancelled := keys.cancelled;
      }
      CheckReaches(cfg, Sees(), failed);
      worker := DoCheck(Sees(), failed).worker;
    }

    /** Discarded candidates go to the list to uncancel, the others behind the buffer. */
    method Sift(cands: seq<Buffered>, flags: seq<bool>, buffer: seq<Buffered>, ghost cancelled: set<string>)
      returns (longer: seq<Buffered>, toUncancel: seq<string>)
      requires |flags| == |cands| && forall i :: 0 <= i < |cands| ==> (flags[i] <==> cands[i].entry.playerID in cancelled)
      ensures longer == buffer + Flagged(cands, cancelled, false, |cands|)
      ensures toUncancel == PlayersOf(EntriesOf(Flagged(cands, cancelled, true, |cands|)))
    {
      longer, toUncancel := buffer, [];
      for i := 0 to |cands|
        invariant longer == buffer + Flagged(cands, cancelled, false, i)
        invariant toUncancel == PlayersOf(EntriesOf(Flagged(cands, cancelled, true, i)))
      {
        if flags[i] {
          toUncancel := toUncancel + [cands[i].entry.playerID];
        } else {
          longer := longer + [cands[i]];
        }
      }
    }

    /** SREM of the discarded players. */
    method ClearDiscarded(failed: bool, toUncancel: seq<string>, ghost buffer: seq<Buffered>, ghost discarded: seq<Buffered>)
      requires Valid() && At(buffer, Clearing(discarded)) && toUncancel == PlayersOf(EntriesOf(discarded))
      modifies this`worker, keys
      ensures Valid() && At(buffer, Choosing)
      ensures keys.View() == if failed then old(keys.View()) else Uncancel(old(keys.View()), PlayerSet(discarded))
    {
      hide Reachable;
      ghost var s := Sees();
      ClearReaches(cfg, s, failed);
      PlayersAreSet(discarded);
      if !failed {
        keys.SRemCancelled(toUncancel);
      }
      worker := worker.(pc := Choosing);
      assert Sees() == DoClear(s, failed);
    }

    lemma PlayersAreSet(bs: seq<Buffered>)
      ensures Elements(PlayersOf(EntriesOf(bs))) == PlayerSet(bs)
    {
      forall b | b in bs
        ensures b.entry.playerID in PlayersOf(EntriesOf(bs))
      {
        var i :| 0 <= i < |bs| && bs[i] == b;
        assert PlayersOf(EntriesOf(bs))[i] == b.entry.playerID;
      }
    }

    /** The appends of commitMatch. */
    method PackArgs(group: seq<Buffered>, rec: Match) returns (args: seq<Arg>, ghost call: CommitCall)
      ensures call == CommitCall(PlayersOf(EntriesOf(group)), MembersOf(group), rec, 600, UnixMilli(rec.formedAt), rec.id, 1000)
      ensures args == PackCommit(call)
    {
      args := [Num(|group|)];
      for i := 0 to |group|
        invariant args == [Num(|group|)] + Texts(PlayersOf(EntriesOf(group))[..i])
      {
        args := args + [Text(group[i].entry.playerID)];
      }
      ghost var front := args;
      for i := 0 to |group|
        invariant args == front + Raws(MembersOf(group)[..i])
      {
        args := args + [Raw(group[i].member)];
      }
      args := args + [Record(rec), Num(MATCH_TTL), Num(UnixMilli(rec.formedAt)), Key(rec.id), Num(STREAM_MAX_LEN)];
      call := CommitCall(PlayersOf(EntriesOf(group)), MembersOf(group), rec, MATCH_TTL, UnixMilli(rec.formedAt), rec.id, STREAM_MAX_LEN);
      assert PlayersOf(EntriesOf(group))[..|group|] == PlayersOf(EntriesOf(group));
      assert MembersOf(group)[..|group|] == MembersOf(group);
    }

    /** commitMatch: ok when the match is made, not ok when a player is cancelled; an error
        when no reply came, whether or not the script ran. */
    method CommitMatch(fate: Fate, group: seq<Buffered>, ghost buffer: seq<Buffered>, at: int)
      returns (ok: bool, failed: bool, ghost rec: Match)
      requires Valid() && At(buffer, Committing(group, at)) && at <= clock
      modifies this`worker, this`seqNo, this`clock, this`hist, keys
      ensures Valid() && seqNo == old(seqNo) + 1 && clock >= old(clock)
      ensures rec == NewMatch(cfg, group, clock, seqNo) && rec.id !in old(keys.records)
      ensures rec.id == MatchID(cfg.shard, UnixMilli(clock), seqNo) && rec.shard == cfg.shard && rec.status == Forming
      ensures rec.playerIDs == PlayersOf(EntriesOf(group)) && rec.entries == EntriesOf(group) && rec.formedAt == clock
      ensures keys.View() == if fate == Unsent then old(keys.View()) else Scripts.Commit(old(keys.View()), MembersOf(group), rec)
      ensures failed <==> fate != Replied
      ensures ok <==> fate == Replied && CommitAllowed(old(keys.View()), rec.playerIDs)
      ensures if failed then worker.Down? else At(buffer, if ok then Choosing else Repushing(group, 0))
    {
      hide Reachable, Scripts.Commit, CommitAllowed, NewMatch, PlayersOf, MembersOf;
      var s := Sees();
      FreshNumber(cfg, s);
      seqNo := seqNo + 1;
      var now := Now();
      CommitReaches(cfg, s, now, fate);
      var match_ := NewMatch(cfg, group, now, seqNo);
      rec := match_;
      MatchShape(cfg, group, now, seqNo);
      var t := DoTryCommit(cfg, s, now, fate);
      CommitIsScript(cfg, s, now, fate);
      worker, hist := t.worker, t.hist;
      failed := fate != Replied;
      ok := false;
      if fate != Unsent {
        var args;
        ghost var call;
        args, call := PackArgs(group, match_);
        var reply := keys.CommitMatchScript(args, call);
        ok := fate == Replied && reply == 1;
      }
      assert Sees() == t;
    }

    lemma FreshNumber(cfg: Config, s: Sys)
      requires Reachable(cfg, s) && s.worker.Up?
      ensures forall id :: id in s.db.records ==> id.millis < s.worker.startMillis || id.seqNo <= s.worker.seqNo
    {
      InvReachable(cfg, s);
    }

    lemma CommitIsScript(cfg: Config, s: Sys, now: int, fate: Fate)
      requires s.worker.Up? && s.worker.pc.Committing?
      ensures var t, rec := DoTryCommit(cfg, s, now, fate), NewMatch(cfg, s.worker.pc.group, now, s.worker.seqNo + 1);
        && t.ops == s.ops
        && t.db == if fate == Unsent then s.db else Scripts.Commit(s.db, MembersOf(s.worker.pc.group), rec)
    {
    }

    lemma MatchShape(cfg: Config, group: seq<Buffered>, now: int, seqNo: nat)
      ensures var rec := NewMatch(cfg, group, now, seqNo);
        && rec.playerIDs == PlayersOf(EntriesOf(group)) && rec.entries == EntriesOf(group) && rec.status == Forming
        && rec.formedAt == now && rec.shard == cfg.shard && rec.id == MatchID(cfg.shard, UnixMilli(now), seqNo)
        && |rec.playerIDs| == |MembersOf(group)| == |group|
    {
    }

    /** repushGroup: a pipeline of ZADDs and one ZREM, not a transaction. The connection
        breaks before command number cut, if there are that many. */
    method RepushGroup(cut: nat, alone: bool, group: seq<Buffered>, ghost buffer: seq<Buffered>) returns (ok: bool)
      requires Valid() && At(buffer, Repushing(group, 0))
      modifies this`worker, this`ops, this`hist, keys
      ensures Valid() && At(buffer, Choosing)
      ensures ok <==> cut > |group|
      ensures Onward(old(keys.View()), keys.View())
      ensures keys.processing == old(keys.processing) - if ok then Elements(MembersOf(group)) else {}
      ensures ok ==> Elements(MembersOf(group)) <= keys.queue.Keys
      ensures alone ==> keys.cancelled == old(keys.cancelled)
      ensures alone ==> keys.queue.Keys == old(keys.queue.Keys) + Elements(MembersOf(group)[..if cut < |group| then cut else |group|])
    {
      hide Reachable, Onward, Elements, MembersOf;
      ghost var was := keys.View();
      OnwardReflexive(was);
      var members: seq<Member> := [];
      ElementsNone();
      for i := 0 to |group|
        invariant Valid() && At(buffer, Repushing(group, i))
        invariant members == MembersOf(group)[..i] && i <= cut
        invariant Onward(was, keys.View()) && keys.processing == was.processing
        invariant Elements(members) <= keys.queue.Keys
        invariant alone ==> keys.cancelled == was.cancelled && keys.queue.Keys == was.queue.Keys + Elements(members)
      {
        RepushReaches(cfg, Sees());
        if cut == i {
          worker := worker.(pc := Choosing);
          return false;
        }
        ghost var before := keys.View();
        PushBack(alone, i, group, buffer);
        OnwardTransitive(was, before, keys.View());
        OnwardQueue(before, keys.View());
        ElementsMore(members, group[i].member);
        members := members + [group[i].member];
      }
      assert MembersOf(group)[..|group|] == MembersOf(group);
      ghost var before := keys.View();
      Interfere(alone);
      OnwardTransitive(was, before, keys.View());
      OnwardQueue(before, keys.View());
      RepushReaches(cfg, Sees());
      ghost var last := keys.View();
      ok := cut > |group|;
      if ok {
        TakeOut(group, members, buffer);
        OnwardSame(last, keys.View());
        OnwardTransitive(was, last, keys.View());
      } else {
        worker := worker.(pc := Choosing);
      }
    }

    lemma ElementsNone()
      ensures Elements<Member>([]) == {}
    {
    }

    lemma ElementsMore(members: seq<Member>, m: Member)
      ensures Elements(members + [m]) == Elements(members) + {m}
    {
    }

    /** One ZADD of the pipeline, with anyone else before it. */
    method PushBack(alone: bool, i: nat, group: seq<Buffered>, ghost buffer: seq<Buffered>)
      requires Valid() && i < |group| && At(buffer, Repushing(group, i))
      modifies this`worker, this`ops, this`hist, keys
      ensures Valid() && At(buffer, Repushing(group, i + 1))
      ensures Onward(old(keys.View()), keys.View()) && keys.processing == old(keys.processing)
      ensures group[i].member in keys.queue
      ensures alone ==> keys.cancelled == old(keys.cancelled) && keys.queue == old(keys.queue)[group[i].member := group[i].score]
    {
      hide Reachable, Onward;
      ghost var was := keys.View();
      Interfere(alone);
      ghost var before := keys.View();
      ghost var s := Sees();
      RepushReaches(cfg, s);
      keys.ZAddQueue(group[i].member, group[i].score);
      worker := worker.(pc := Repushing(group, i + 1));
      assert Sees() == DoRepushAdd(s);
      EnqueueOnward(before, group[i].member, group[i].score);
      OnwardTransitive(was, before, keys.View());
    }

    /** Its ZREM. */
    method TakeOut(group: seq<Buffered>, members: seq<Member>, ghost buffer: seq<Buffered>)
      requires Valid() && At(buffer, Repushing(group, |group|)) && members == MembersOf(group)
      modifies this`worker, keys
      ensures Valid() && At(buffer, Choosing)
      ensures keys.View() == Unprocess(old(keys.View()), Elements(members))
    {
      hide Reachable;
      ghost var s := Sees();
      RepushReaches(cfg, s);
      keys.ZRemProcessing(members);
      worker := worker.(pc := Choosing);
      assert Sees() == DoRepushRemove(s);
    }

    lemma EnqueueOnward(db: Db, m: Member, score: int)
      ensures Onward(db, Enqueue(db, m, score))
    {
    }

    lemma OnwardSame(a: Db, b: Db)
      requires a.queue == b.queue && a.records == b.records
      ensures Onward(a, b)
    {
    }

    lemma TooFew(buffer: seq<Buffered>, n: nat, now: int)
      requires n >= 1 && |buffer| < n
      ensures Select(buffer, n, now).NotFound?
    {
    }

    /** One chosen group: committed, or pushed back when a player turned out cancelled. */
    method CommitOrRepush(
        faults: Faults, round: nat, group: seq<Buffered>, remaining: seq<Buffered>, at: int,
        ghost start: seq<Buffered>, ghost first: Db, ghost buffer: seq<Buffered>, ghost books: Deals)
      returns (failed: bool, ghost d: Deals)
      requires Valid() && At(remaining, Committing(group, at)) && at <= clock
      requires Books(cfg.n, start, first, buffer, keys.View(), books) && Chosen(cfg.n, buffer, group, remaining)
      modifies this`worker, this`seqNo, this`clock, this`ops, this`hist, keys
      ensures Valid() && clock >= old(clock) && d.last == books.last
      ensures failed <==> faults.commit(round) != Replied
      ensures if failed
        then worker.Down? && Closed(cfg.n, start, first, remaining, keys.View(), d, true)
        else At(remaining, Choosing) && Books(cfg.n, start, first, remaining, keys.View(), d)
      ensures faults.cut(round) > cfg.n ==> d.stuck == books.stuck
      ensures faults.alone ==> keys.cancelled == old(keys.cancelled)
      ensures faults.alone && Judged(old(keys.cancelled), books) ==> Judged(old(keys.cancelled), d)
      ensures d.repushed == [] && d.stuck == [] ==> books.repushed == [] && books.stuck == [] && (faults.alone ==> keys.queue == old(keys.queue))
    {
      hide Unflagged;
      hide Reachable, Onward, Books, Closed, NewMatch, EntriesOf, MembersOf, PlayersOf, CommitAllowed, Scripts.Commit;
      ghost var db := keys.View();
      Interfere(faults.alone);
      BooksOnward(cfg.n, start, first, buffer, db, keys.View(), books, books.last);
      assert books.(last := books.last) == books;
      db := keys.View();
      var ok;
      ghost var rec;
      ok, failed, rec := CommitMatch(faults.commit(round), group, remaining, at);
      MatchShape(cfg, group, clock, seqNo);
      CommitJudges(db, group, rec);
      if failed {
        BooksFailed(cfg.n, start, first, buffer, db, keys.View(), books, group, remaining, rec);
        d := books.(inHand := group);
        return;
      }
      if ok {
        BooksCommitted(cfg.n, start, first, buffer, db, books, group, remaining, rec);
        d := books.(committed := books.committed + [group], ids := books.ids + [rec.id]);
      } else {
        CommitRefused(db, MembersOf(group), rec);
        assert keys.View() == db;
        var pushed := RepushGroup(faults.cut(round), faults.alone, group, remaining);
        PushedSize(cfg.n, buffer, group, remaining);
        if pushed {
          BooksRepushed(cfg.n, start, first, buffer, db, keys.View(), books, group, remaining);
          d := books.(repushed := books.repushed + [group]);
        } else {
          BooksStuck(cfg.n, start, first, buffer, db, keys.View(), books, group, remaining);
          d := books.(stuck := books.stuck + [group]);
        }
      }
    }

    lemma CommitRefused(db: Db, members: seq<Member>, rec: Match)
      requires !CommitAllowed(db, rec.playerIDs)
      ensures Scripts.Commit(db, members, rec) == db
    {
    }

    lemma PushedSize(n: nat, buffer: seq<Buffered>, group: seq<Buffered>, remaining: seq<Buffered>)
      requires Chosen(n, buffer, group, remaining)
      ensures |group| == n
    {
    }

    /** The loop of popOnce: select, commit, push back on conflict, until no group is left. */
    method CommitGroups(faults: Faults, buffer: seq<Buffered>)
      returns (out: seq<Buffered>, failed: bool, ghost d: Deals)
      requires Valid() && At(buffer, Choosing)
      modifies this`worker, this`seqNo, this`clock, this`ops, this`hist, keys
      ensures Valid() && if failed then worker.Down? else At(out, Idle)
      ensures Closed(cfg.n, buffer, old(keys.View()), out, keys.View(), d, failed)
      ensures !failed ==> Select(out, cfg.n, d.last).NotFound?
      ensures old(clock) <= d.last <= clock
      ensures (forall i :: faults.commit(i) == Replied) ==> !failed
      ensures (forall i :: faults.cut(i) > cfg.n) ==> d.stuck == []
      ensures faults.alone ==> keys.cancelled == old(keys.cancelled) && Judged(keys.cancelled, d)
      ensures faults.alone && d.repushed == [] && d.stuck == [] ==> keys.queue == old(keys.queue)
    {
      hide Reachable, Onward, Books, Closed, Chosen, Select, Judged;
      out, failed, d := buffer, false, Deals([], [], [], [], [], clock);
      ghost var first := keys.View();
      BooksInitially(cfg.n, buffer, first, clock);
      NothingJudged(keys.cancelled, d);
      var round: nat := 0;
      while |out| >= cfg.n
        invariant Valid() && At(out, Choosing) && !failed
        invariant Books(cfg.n, buffer, first, out, keys.View(), d)
        invariant old(clock) <= d.last <= clock
        invariant (forall i :: faults.cut(i) > cfg.n) ==> d.stuck == []
        invariant faults.alone ==> keys.cancelled == old(keys.cancelled) && Judged(keys.cancelled, d)
        invariant faults.alone && d.repushed == [] && d.stuck == [] ==> keys.queue == old(keys.queue)
        decreases |out|
      {
        var now := Now();
        BooksLater(cfg.n, buffer, first, out, keys.View(), d, now);
        JudgedLater(keys.cancelled, d, now);
        d := d.(last := now);
        var group, remaining, found := SelectGroup(out, cfg.n, now);
        ChooseReaches(cfg, Sees(), now);
        worker := DoChoose(cfg, Sees(), now).worker;
        if !found {
          BooksClosed(cfg.n, buffer, first, out, keys.View(), d);
          return;
        }
        SelectChosen(out, cfg.n, now);
        failed, d := CommitOrRepush(faults, round, group, remaining, now, buffer, first, out, d);
        out := remaining;
        if failed {
          return;
        }
        round := round + 1;
      }
      ChooseReaches(cfg, Sees(), d.last);
      TooFew(out, cfg.n, d.last);
      worker := worker.(pc := Idle);
      BooksClosed(cfg.n, buffer, first, out, keys.View(), d);
    }

    /** The first half of popOnce: pop and decode, sift out the cancelled, clear their flags.
        Nothing well-formed read means that the turn is over. */
    method Refill(faults: Faults, buffer: seq<Buffered>) returns (longer: seq<Buffered>, more: bool, ghost turn: Turn)
      requires Valid() && At(buffer, Idle)
      modifies this`worker, this`ops, this`hist, keys
      ensures Valid() && At(longer, if more then Choosing else Idle)
      ensures if faults.pop == Unsent then turn.moved == [] else PopMin(old(keys.queue), POP_BATCH_SIZE, turn.moved)
      ensures forall m :: m in turn.moved ==> m in old(keys.queue)
      ensures turn.cands == if faults.pop == Replied then Parse(turn.moved, old(keys.queue), |turn.moved|) else []
      ensures more <==> turn.cands != []
      ensures !more ==> longer == buffer && OnlyMoved(old(keys.View()), keys.View(), turn)
      ensures RecordsStay(old(keys.View()), keys.View())
      ensures faults.alone ==> keys.queue == old(keys.queue) - Elements(turn.moved)
      ensures longer == buffer + Flagged(turn.cands, turn.cancelled, false, |turn.cands|)
      ensures keys.processing.Keys == old(keys.processing.Keys) + Elements(turn.moved)
      ensures faults.check ==> turn.cancelled == {}
      ensures more && faults.alone ==>
        && (!faults.check ==> turn.cancelled == old(keys.cancelled))
        && keys.cancelled == old(keys.cancelled) - (if faults.clear then {} else SeenCancelled(turn))
      ensures turn.deals == NO_DEALS
    {
      hide Reachable, PopMin, Parse, Pop, Onward, RecordsStay, Flagged, SeenCancelled, PlayerSet;
      ghost var first := keys.View();
      var cands;
      ghost var moved;
      cands, moved := PopBatch(faults.pop, buffer);
      ghost var popped := keys.View();
      PopKeeps(first, moved);
      turn := Turn(moved, cands, {}, NO_DEALS);
      if cands == [] {
        NothingFlagged(buffer);
        return buffer, false, turn;
      }
      ghost var cancelled;
      longer, cancelled := CheckAndClear(faults, cands, buffer);
      turn := turn.(cancelled := cancelled);
      OnwardRecords(first, popped, keys.View());
      SeenAreDiscarded(turn);
      more := true;
    }

    lemma NothingFlagged(buffer: seq<Buffered>)
      ensures buffer == buffer + Flagged([], {}, false, 0)
    {
    }

    /** The cancelled check, the sifting and the clearing. */
    method CheckAndClear(faults: Faults, cands: seq<Buffered>, buffer: seq<Buffered>)
      returns (longer: seq<Buffered>, ghost cancelled: set<string>)
      requires Valid() && At(buffer, Parsed(cands))
      modifies this`worker, this`ops, this`hist, keys
      ensures Valid() && At(longer, Choosing)
      ensures longer == buffer + Flagged(cands, cancelled, false, |cands|)
      ensures faults.check ==> cancelled == {}
      ensures keys.processing == old(keys.processing) && Onward(old(keys.View()), keys.View())
      ensures faults.alone ==>
        && keys.queue == old(keys.queue) && (!faults.check ==> cancelled == old(keys.cancelled))
        && keys.cancelled == old(keys.cancelled) - (if faults.clear then {} else PlayerSet(Flagged(cands, cancelled, true, |cands|)))
    {
      hide Reachable, Onward, Flagged;
      ghost var was := keys.View();
      Interfere(faults.alone);
      var flags;
      flags, cancelled := CheckCancelled(faults.check, cands, buffer);
      ghost var checked := keys.View();
      Interfere(faults.alone);
      OnwardTransitive(was, checked, keys.View());
      var toUncancel;
      longer, toUncancel := Sift(cands, flags, buffer, cancelled);
      if |toUncancel| > 0 {
        ghost var before := keys.View();
        ClearDiscarded(faults.clear, toUncancel, longer, Flagged(cands, cancelled, true, |cands|));
        ghost var cleared := keys.View();
        OnwardSame(before, cleared);
        OnwardTransitive(was, before, cleared);
        Interfere(faults.alone);
        OnwardTransitive(was, cleared, keys.View());
      }
    }

    /** popOnce: refill the buffer, then commit what groups there are. */
    method PopOnce(faults: Faults, buffer: seq<Buffered>) returns (out: seq<Buffered>, failed: bool, ghost turn: Turn)
      requires Valid() && At(buffer, Idle)
      modifies this`worker, this`seqNo, this`clock, this`ops, this`hist, keys
      ensures Valid() && (if failed then worker.Down? else At(out, Idle)) && clock >= old(clock)
      ensures TurnGuarantee(cfg.n, faults, buffer, old(keys.View()), out, keys.View(), turn, failed)
    {
      hide Reachable, PopMin, Parse, Pop, Flagged, Select, Closed, TurnClosed, Onward, Dealt, Prompt, Judged, SeenCancelled;
      hide ReadOnce, RecordsStay, OnlyMoved, PoppedAndRead;
      ghost var first := keys.View();
      var longer, more;
      longer, more, turn := Refill(faults, buffer);
      if !more {
        PoppedIs(faults, first, turn);
        return buffer, false, turn;
      }
      ghost var last := keys.View();
      ghost var deals;
      out, failed, deals := CommitGroups(faults, longer);
      SameSeen(turn, deals);
      turn := turn.(deals := deals);
      PoppedIs(faults, first, turn);
      TurnEnds(cfg.n, buffer, first, last, out, keys.View(), turn, failed);
      if !failed {
        FiftySecondBound(cfg.n, buffer, first, out, keys.View(), turn);
      }
    }

    lemma PoppedIs(faults: Faults, first: Db, t: Turn)
      requires if faults.pop == Unsent then t.moved == [] else PopMin(first.queue, POP_BATCH_SIZE, t.moved)
      requires forall m :: m in t.moved ==> m in first.queue
      requires t.cands == if faults.pop == Replied then Parse(t.moved, first.queue, |t.moved|) else []
      ensures PoppedAndRead(faults, first, t)
    {
      ParseIsReadOnce(t.moved, first.queue);
    }

    lemma SameSeen(t: Turn, d: Deals)
      ensures SeenCancelled(t.(deals := d)) == SeenCancelled(t)
    {
    }

    lemma PopKeeps(db: Db, moved: seq<Member>)
      requires forall m :: m in moved ==> m in db.queue
      ensures Pop(db, moved).cancelled == db.cancelled
      ensures Pop(db, moved).processing.Keys == db.processing.Keys + Elements(moved)
      ensures Pop(db, moved) == db.(queue := db.queue - Elements(moved), processing := Pop(db, moved).processing)
      ensures RecordsStay(db, Pop(db, moved))
    {
    }

    lemma SeenAreDiscarded(t: Turn)
      ensures PlayerSet(Discarded(t)) == SeenCancelled(t)
    {
      FlaggedIsSifted(t.cands, t.cancelled, true);
      SiftedMeans(t.cands, t.cancelled, true, Discarded(t));
    }

    /** Run: recover what an earlier worker left in processing, then popOnce again and
        again. The log holds every turn with what it guarantees; whatever fails, the shard
        stays in a reachable state, and only a commit call without a reply ends the worker. */
    method Run(rounds: nat, faults: nat -> Faults) returns (buffer: seq<Buffered>, ghost log: seq<Round>)
      requires Valid() && worker.Down? && forall id :: id in keys.records ==> id.millis < UnixMilli(clock)
      modifies this`worker, this`seqNo, this`clock, this`ops, this`hist, keys
      ensures Valid() && (worker.Up? ==> At(buffer, Idle))
      ensures IsSession(cfg.n, faults, Drain(old(keys.View())), log)
      ensures SessionEnds(Drain(old(keys.View())), log, buffer, keys.View(), worker.Down?)
      ensures if worker.Up? then |log| == rounds else 1 <= |log| <= rounds
    {
      hide Reachable, TurnGuarantee, Drain, Onward, IsSession;
      Startup();
      ghost var start := keys.View();
      buffer, log := [], [];
      NoTurnYet(cfg.n, faults, start);
      for round := 0 to rounds
        invariant Valid() && At(buffer, Idle) && |log| == round
        invariant IsSession(cfg.n, faults, start, log) && SessionEnds(start, log, buffer, keys.View(), false)
      {
        Interfere(faults(round).alone);
        ghost var first := keys.View();
        var failed, out;
        ghost var turn;
        out, failed, turn := PopOnce(faults(round), buffer);
        ghost var r := Round(buffer, first, out, keys.View(), turn, failed);
        SessionGrows(cfg.n, faults, start, log, r);
        log := log + [r];
        buffer := out;
        if failed {
          return;
        }
      }
    }

    method Startup()
      requires Valid() && worker.Down? && forall id :: id in keys.records ==> id.millis < UnixMilli(clock)
      modifies this`worker, this`seqNo, keys
      ensures Valid() && At([], Idle)
      ensures keys.View() == Drain(old(keys.View()))
    {
      hide Reachable, Drain;
      StartReaches(cfg, Sees(), UnixMilli(clock));
      keys.DrainProcessingScript();
      worker, seqNo := Up(UnixMilli(clock), 0, [], Idle), 0;
    }
  }
}

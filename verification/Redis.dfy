/** The keys of one shard as an object, and the Lua scripts as methods that change them in
    place. Each method is shown to do what the function of the same name in Scripts says. */
module Redis {
  import opened Model
  import opened Scripts
  import opened Argv

  class ShardKeys {
    var queue: map<Member, int>
    var processing: map<Member, int>
    var forming: map<MatchID, int>
    var records: map<MatchID, Match>
    var status: map<MatchID, Status>
    var accepted: map<MatchID, set<string>>
    var declined: map<MatchID, set<string>>
    var cancelled: set<string>
    var stream: seq<Match>

    function View(): Db
      reads this
    {
      Db(queue, processing, forming, records, status, accepted, declined, cancelled, stream)
    }

    constructor ()
      ensures View() == EMPTY_DB
    {
      queue, processing, forming, records, status := map[], map[], map[], map[], map[];
      accepted, declined, cancelled, stream := map[], map[], {}, [];
    }

    /** Whatever scripts other processes run. */
    method Become(db: Db)
      modifies this
      ensures View() == db
    {
      queue, processing, forming, records, status := db.queue, db.processing, db.forming, db.records, db.status;
      accepted, declined, cancelled, stream := db.accepted, db.declined, db.cancelled, db.stream;
    }

    // ---- queue ------------------------------------------------------------------------

    method JoinScript(e: QueueEntry)
      modifies this
      ensures View() == Enqueue(old(View()), Encoded(e), UnixMilli(e.enqueuedAt))
      ensures View() == old(View()).(queue := old(queue)[Encoded(e) := UnixMilli(e.enqueuedAt)])
    {
      queue := queue[Encoded(e) := UnixMilli(e.enqueuedAt)];
    }

    method CancelScript(p: string)
      modifies this
      ensures View() == Scripts.Cancel(old(View()), p)
      ensures View() == old(View()).(cancelled := old(cancelled) + {p})
    {
      cancelled := cancelled + {p};
    }

    /** A member with the least score. */
    method Least() returns (m: Member)
      requires queue != map[]
      ensures m in queue && forall x :: x in queue ==> queue[m] <= queue[x]
    {
      var rest := queue.Keys;
      m :| m in rest;
      rest := rest - {m};
      while rest != {}
        invariant rest <= queue.Keys && m in queue
        invariant forall x :: x in queue && x !in rest ==> queue[m] <= queue[x]
        decreases |rest|
      {
        var x :| x in rest;
        if queue[x] < queue[m] {
          m := x;
        }
        rest := rest - {x};
      }
    }

    /** ZPOPMIN: the members that leave the queue, least score first. */
    method ZPopMin(count: nat) returns (batch: seq<Member>)
      modifies this`queue
      ensures PopMin(old(queue), count, batch)
      ensures queue == old(queue) - Elements(batch)
    {
      batch := [];
      ghost var before := queue;
      assert Popping(before, queue, batch);
      while |batch| < count && queue != map[]
        invariant |batch| <= count && Popping(before, queue, batch)
      {
        var m := Least();
        PoppingStep(before, queue, batch, m);
        queue := queue - {m};
        batch := batch + [m];
      }
      PoppingEnds(before, queue, batch, count);
    }

    ghost predicate Popping(before: map<Member, int>, queue: map<Member, int>, batch: seq<Member>) {
      && queue == before - Elements(batch)
      && |before| == |batch| + |queue|
      && (forall i :: 0 <= i < |batch| ==> batch[i] in before)
      && (forall i, j :: 0 <= i < j < |batch| ==> batch[i] != batch[j] && before[batch[i]] <= before[batch[j]])
      && (forall i, m :: 0 <= i < |batch| && m in queue ==> before[batch[i]] <= before[m])
    }

    lemma PoppingStep(before: map<Member, int>, queue: map<Member, int>, batch: seq<Member>, m: Member)
      requires Popping(before, queue, batch) && m in queue && forall x :: x in queue ==> queue[m] <= queue[x]
      ensures Popping(before, queue - {m}, batch + [m])
    {
      PoppingRest(before, queue, batch, m);
      PoppingOrder(before, queue, batch, m);
      forall i, x | 0 <= i < |batch + [m]| && x in queue - {m}
        ensures before[(batch + [m])[i]] <= before[x]
      {
      }
    }

    lemma PoppingRest(before: map<Member, int>, queue: map<Member, int>, batch: seq<Member>, m: Member)
      requires queue == before - Elements(batch) && m in queue
      ensures queue - {m} == before - Elements(batch + [m]) && m !in batch
      ensures |queue - {m}| == |queue| - 1
    {
      assert (queue - {m}).Keys == queue.Keys - {m};
      assert Elements(batch + [m]) == Elements(batch) + {m};
    }

    lemma PoppingOrder(before: map<Member, int>, queue: map<Member, int>, batch: seq<Member>, m: Member)
      requires Popping(before, queue, batch) && m in queue && m !in batch
      ensures var more := batch + [m];
        forall i, j :: 0 <= i < j < |more| ==> more[i] in before && more[j] in before && more[i] != more[j] && before[more[i]] <= before[more[j]]
    {
    }

    lemma PoppingEnds(before: map<Member, int>, queue: map<Member, int>, batch: seq<Member>, count: nat)
      requires Popping(before, queue, batch) && |batch| <= count && (|batch| == count || queue == map[])
      ensures PopMin(before, count, batch)
    {
      forall m | m in before && m !in batch
        ensures m in queue
      {
      }
    }

    /** ZPOPMIN, then ZADD of each popped member with its score to the processing set. */
    method PopToProcessingScript(count: nat) returns (batch: seq<Member>, scores: map<Member, int>)
      modifies this`queue, this`processing
      ensures PopMin(old(queue), count, batch)
      ensures View() == Pop(old(View()), batch)
      ensures queue == old(queue) - Elements(batch)
      ensures processing.Keys == old(processing).Keys + Elements(batch)
      ensures forall m :: m in processing ==> processing[m] == if m in batch then old(queue)[m] else old(processing)[m]
      ensures scores == old(queue)
    {
      hide Pop, PopMin, Moved, Elements;
      ghost var was := View();
      scores := queue;
      batch := ZPopMin(count);
      PopMinSound(scores, count, batch);
      ZAddProcessing(batch, scores);
      PoppedIs(was.processing, scores, batch);
      MovedIsPop(was, View(), batch);
    }

    lemma PopMinSound(queue: map<Member, int>, count: nat, batch: seq<Member>)
      requires PopMin(queue, count, batch)
      ensures forall m :: m in batch ==> m in queue
    {
    }

    /** The ZADDs of the pop script. */
    method ZAddProcessing(batch: seq<Member>, scores: map<Member, int>)
      requires forall m :: m in batch ==> m in scores
      modifies `processing
      ensures processing == Moved(old(processing), scores, Elements(batch))
    {
      hide Moved;
      MovedNothing(processing, scores);
      assert Elements(batch[..0]) == {};
      for i := 0 to |batch|
        invariant processing == Moved(old(processing), scores, Elements(batch[..i]))
      {
        MovedOne(old(processing), scores, Elements(batch[..i]), batch[i]);
        assert Elements(batch[..i + 1]) == Elements(batch[..i]) + {batch[i]};
        processing := processing[batch[i] := scores[batch[i]]];
      }
      assert batch[..|batch|] == batch;
    }

    /** One sorted set after ZADDs of some members of another. */
    function Moved(target: map<Member, int>, source: map<Member, int>, members: set<Member>): map<Member, int> {
      target + (map m | m in members && m in source :: source[m])
    }

    lemma MovedNothing(target: map<Member, int>, source: map<Member, int>)
      ensures Moved(target, source, {}) == target
    {
    }

    lemma MovedOne(target: map<Member, int>, source: map<Member, int>, members: set<Member>, m: Member)
      requires m in source
      ensures Moved(target, source, members + {m}) == Moved(target, source, members)[m := source[m]]
    {
    }

    lemma MovedIs(target: map<Member, int>, source: map<Member, int>, members: set<Member>)
      requires members <= source.Keys
      ensures Moved(target, source, members).Keys == target.Keys + members
      ensures forall m :: m in Moved(target, source, members) ==>
        Moved(target, source, members)[m] == if m in members then source[m] else target[m]
    {
    }

    lemma PoppedIs(target: map<Member, int>, source: map<Member, int>, batch: seq<Member>)
      requires forall m :: m in batch ==> m in source
      ensures var moved := Moved(target, source, Elements(batch));
        && moved.Keys == target.Keys + Elements(batch)
        && forall m :: m in moved ==> (m in batch || m in target) && moved[m] == if m in batch then source[m] else target[m]
    {
    }

    lemma MovedIsPop(db: Db, after: Db, batch: seq<Member>)
      requires forall m :: m in batch ==> m in db.queue
      requires after == db.(queue := after.queue, processing := after.processing)
      requires after.queue == db.queue - Elements(batch) && after.processing == Moved(db.processing, db.queue, Elements(batch))
      ensures after == Pop(db, batch)
    {
    }

    lemma MovedIsDrain(db: Db)
      ensures db.(queue := Moved(db.queue, db.processing, db.processing.Keys), processing := map[]) == Drain(db)
    {
      assert (map m | m in db.processing.Keys && m in db.processing :: db.processing[m]) == db.processing;
    }

    method DrainProcessingScript()
      modifies this
      ensures View() == Drain(old(View()))
      ensures View() == old(View()).(queue := queue, processing := map[])
      ensures queue.Keys == old(queue).Keys + old(processing).Keys
      ensures forall m :: m in queue ==> queue[m] == if m in old(processing) then old(processing)[m] else old(queue)[m]
    {
      hide Moved, Drain;
      ghost var was := View();
      ZAddBack();
      processing := map[];
      MovedIs(was.queue, was.processing, was.processing.Keys);
      MovedIsDrain(was);
    }

    /** The ZADD of every processing entry to the queue. */
    method ZAddBack()
      modifies `queue
      ensures queue == Moved(old(queue), processing, processing.Keys)
    {
      hide Moved;
      var rest := processing.Keys;
      ghost var done: set<Member> := {};
      MovedNothing(queue, processing);
      while rest != {}
        invariant rest + done == processing.Keys
        invariant queue == Moved(old(queue), processing, done)
        decreases |rest|
      {
        var m :| m in rest;
        MovedOne(old(queue), processing, done, m);
        queue := queue[m := processing[m]];
        rest := rest - {m};
        done := done + {m};
      }
      assert done == processing.Keys;
    }

    method ZAddQueue(m: Member, score: int)
      modifies this
      ensures View() == Enqueue(old(View()), m, score)
      ensures View() == old(View()).(queue := old(queue)[m := score])
    {
      queue := queue[m := score];
    }

    method ZRemProcessing(members: seq<Member>)
      modifies this
      ensures View() == Unprocess(old(View()), Elements(members))
      ensures View() == old(View()).(processing := old(processing) - (set m | m in members))
    {
      processing := processing - (set m | m in members);
    }

    method SMIsMember(players: seq<string>) returns (flags: seq<bool>)
      ensures |flags| == |players|
      ensures forall i :: 0 <= i < |players| ==> (flags[i] <==> players[i] in cancelled)
    {
      flags := [];
      for i := 0 to |players|
        invariant |flags| == i && forall j :: 0 <= j < i ==> (flags[j] <==> players[j] in cancelled)
      {
        flags := flags + [players[i] in cancelled];
      }
    }

    method SRemCancelled(players: seq<string>)
      modifies this
      ensures View() == Uncancel(old(View()), Elements(players))
      ensures View() == old(View()).(cancelled := old(cancelled) - (set p | p in players))
    {
      cancelled := cancelled - (set p | p in players);
    }

    // ---- matches ------------------------------------------------------------------------

    method CommitMatchScript(argv: seq<Arg>, ghost call: CommitCall) returns (reply: int)
      requires Balanced(call) && argv == PackCommit(call)
      requires call.id == call.rec.id && call.score == UnixMilli(call.rec.formedAt)
      requires call.rec.status == Forming && call.playerIDs == call.rec.playerIDs
      modifies this
      ensures reply == (if CommitAllowed(old(View()), call.playerIDs) then 1 else 0)
      ensures View() == Scripts.Commit(old(View()), call.members, call.rec)
      ensures reply == 1 <==> forall i :: 0 <= i < |call.playerIDs| ==> call.playerIDs[i] !in old(cancelled)
      ensures View() == if reply != 1 then old(View()) else old(View()).(
        records := old(records)[call.id := call.rec], status := old(status)[call.id := Forming],
        forming := old(forming)[call.id := call.score], processing := old(processing) - (set m | m in call.members),
        stream := old(stream) + [call.rec])
    {
      CommitIndices(call);
      var n := At(argv, 1).n;
      var i := 2;
      while i <= n + 1
        invariant 2 <= i <= n + 2
        invariant forall k :: 0 <= k < i - 2 ==> call.playerIDs[k] !in cancelled
      {
        assert At(argv, i) == Text(call.playerIDs[i - 2]);
        if At(argv, i).s in cancelled {
          return 0;
        }
        i := i + 1;
      }
      records := records[At(argv, 2 * n + 5).id := At(argv, 2 * n + 2).rec];
      status := status[At(argv, 2 * n + 5).id := Forming];
      forming := forming[At(argv, 2 * n + 5).id := At(argv, 2 * n + 4).n];
      var members: seq<Member> := [];
      i := 1;
      while i <= n
        invariant 1 <= i <= n + 1 && members == call.members[..i - 1]
      {
        assert At(argv, n + 1 + i) == Raw(call.members[i - 1]);
        members := members + [At(argv, n + 1 + i).m];
        i := i + 1;
      }
      assert members == call.members;
      processing := processing - (set m | m in members);
      stream := stream + [At(argv, 2 * n + 2).rec];
      reply := 1;
    }

    method AcceptScript(id: MatchID, p: string) returns (reply: int)
      modifies this
      ensures reply == AcceptReply(old(View()), id, p)
      ensures View() == Scripts.Accept(old(View()), id, p)
      ensures reply == (if id !in old(status) || old(status)[id] != Forming then -1
                        else if p in Lookup(old(declined), id) then -2
                        else if p in Lookup(old(accepted), id) then -3
                        else |Lookup(old(accepted), id)| + 1)
      ensures View() == if reply < 0 then old(View())
        else old(View()).(accepted := old(accepted)[id := Lookup(old(accepted), id) + {p}])
    {
      if id !in status || status[id] != Forming {
        return -1;
      }
      if p in Lookup(declined, id) {
        return -2;
      }
      if p in Lookup(accepted, id) {
        return -3;
      }
      accepted := accepted[id := Lookup(accepted, id) + {p}];
      reply := |accepted[id]|;
    }

    method DeclineScript(id: MatchID, p: string) returns (reply: int)
      modifies this
      ensures reply == DeclineReply(old(View()), id, p)
      ensures View() == Scripts.Decline(old(View()), id, p)
      ensures reply == (if id !in old(status) || old(status)[id] != Forming then -1
                        else if p in Lookup(old(declined), id) then 0 else 1)
      ensures View() == if reply < 0 then old(View())
        else old(View()).(declined := old(declined)[id := Lookup(old(declined), id) + {p}])
    {
      if id !in status || status[id] != Forming {
        return -1;
      }
      reply := if p in Lookup(declined, id) then 0 else 1;
      declined := declined[id := Lookup(declined, id) + {p}];
    }

    method ConfirmScript(id: MatchID, argv: seq<Arg>, ghost ttl: int, ghost playerIDs: seq<string>) returns (reply: int)
      requires argv == PackConfirm(ttl, id, playerIDs)
      modifies this
      ensures reply == (if IsForming(old(View()), id) then 1 else 0)
      ensures View() == Scripts.Confirm(old(View()), id)
      ensures View() == if reply != 1 then old(View()) else old(View()).(
        status := old(status)[id := Confirmed], forming := old(forming) - {id},
        records := if id in old(records) then old(records)[id := old(records)[id].(status := Confirmed)] else old(records))
    {
      if id !in status || status[id] != Forming {
        return 0;
      }
      ConfirmIndices(ttl, id, playerIDs);
      status := status[id := Confirmed];
      forming := forming - {At(argv, 2).id};
      if id in records {
        records := records[id := records[id].(status := Confirmed)];
      }
      reply := 1;
    }

    method DissolveScript(id: MatchID, argv: seq<Arg>, ghost ttl: int, ghost decliner: string, ghost entries: seq<QueueEntry>)
      returns (reply: int)
      requires argv == PackDissolve(ttl, id, decliner, entries)
      modifies this
      ensures reply == (if IsForming(old(View()), id) then 1 else 0)
      ensures View() == Scripts.Dissolve(old(View()), id, decliner, entries)
      ensures View() == if reply != 1 then old(View()) else old(View()).(
        status := old(status)[id := Dissolved], forming := old(forming) - {id},
        records := if id in old(records) then old(records)[id := old(records)[id].(status := Dissolved)] else old(records),
        queue := queue)
      ensures reply == 1 ==> Requeued(old(queue), queue, old(cancelled), decliner, entries)
    {
      if id !in status || status[id] != Forming {
        return 0;
      }
      status := status[id := Dissolved];
      forming := forming - {At(argv, 2).id};
      if id in records {
        records := records[id := records[id].(status := Dissolved)];
      }
      Requeuing(argv, ttl, id, decliner, entries);
      reply := 1;
    }

    /** The loop of the script over the triples. */
    method Requeuing(argv: seq<Arg>, ghost ttl: int, ghost id: MatchID, ghost decliner: string, ghost entries: seq<QueueEntry>)
      requires argv == PackDissolve(ttl, id, decliner, entries)
      modifies `queue
      ensures queue == Requeue(old(queue), Kept(old(View()), decliner, entries))
      ensures Requeued(old(queue), queue, old(cancelled), decliner, entries)
    {
      hide Requeue, Kept;
      RequeueNone(queue, View(), decliner);
      var decl := At(argv, 3).s;
      var i := 4;
      ghost var k := 0;
      assert entries[..0] == [];
      while i <= |argv|
        invariant 0 <= k <= |entries| && i == 4 + 3 * k
        invariant queue == Requeue(old(queue), Kept(old(View()), decliner, entries[..k]))
      {
        DissolveIndices(ttl, id, decliner, entries, k);
        RequeueStep(old(queue), old(View()), decliner, entries, k);
        var pid := At(argv, i).s;
        var score := At(argv, i + 1).n;
        var member := At(argv, i + 2).m;
        if pid != decl && pid !in cancelled {
          queue := queue[member := score];
        }
        i := i + 3;
        k := k + 1;
      }
      assert entries[..k] == entries;
      RequeueMeans(old(queue), old(View()), decliner, entries);
    }

    /** Every entry whose player neither declined nor is cancelled is in the queue with the
        millisecond of its enqueueing; everyone else in the queue is as before. */
    ghost predicate Requeued(
        before: map<Member, int>, after: map<Member, int>, cancelled: set<string>, decliner: string, entries: seq<QueueEntry>) {
      && (forall e :: e in entries && e.playerID != decliner && e.playerID !in cancelled ==>
            Encoded(e) in after && after[Encoded(e)] == UnixMilli(e.enqueuedAt))
      && (forall m: Member :: m.Malformed? || m.entry !in entries || m.entry.playerID == decliner || m.entry.playerID in cancelled ==>
            (m in after <==> m in before) && (m in before && m in after ==> after[m] == before[m]))
    }

    lemma RequeueMeans(queue: map<Member, int>, db: Db, decliner: string, entries: seq<QueueEntry>)
      ensures Requeued(queue, Requeue(queue, Kept(db, decliner, entries)), db.cancelled, decliner, entries)
    {
      hide UnixMilli;
    }

    lemma RequeueNone(queue: map<Member, int>, db: Db, decliner: string)
      ensures Requeue(queue, Kept(db, decliner, [])) == queue
    {
    }

    lemma RequeueStep(queue: map<Member, int>, db: Db, decliner: string, entries: seq<QueueEntry>, k: nat)
      requires k < |entries|
      ensures Requeue(queue, Kept(db, decliner, entries[..k + 1])) ==
        var before, e := Requeue(queue, Kept(db, decliner, entries[..k])), entries[k];
        if e.playerID != decliner && e.playerID !in db.cancelled then before[Encoded(e) := UnixMilli(e.enqueuedAt)] else before
    {
      KeptStep(db, decliner, entries, k);
    }

    lemma KeptStep(db: Db, decliner: string, entries: seq<QueueEntry>, k: nat)
      requires k < |entries|
      ensures Kept(db, decliner, entries[..k + 1]) == Kept(db, decliner, entries[..k]) +
        if entries[k].playerID != decliner && entries[k].playerID !in db.cancelled then {Encoded(entries[k])} else {}
    {
      assert entries[..k + 1] == entries[..k] + [entries[k]];
    }
  }
}

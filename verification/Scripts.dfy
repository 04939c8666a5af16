/** One shard's Redis keys as a value, and each Lua script as a function on it. Every
    script is atomic, so these are the system's smallest changes. */
module Scripts {
  import opened Model

  /** Sorted sets are maps from member to score; the stream is its whole history. */
  datatype Db = Db(
    queue: map<Member, int>,
    processing: map<Member, int>,
    forming: map<MatchID, int>,
    records: map<MatchID, Match>,
    status: map<MatchID, Status>,
    accepted: map<MatchID, set<string>>,
    declined: map<MatchID, set<string>>,
    cancelled: set<string>,
    stream: seq<Match>)

  const EMPTY_DB := Db(map[], map[], map[], map[], map[], map[], map[], {}, [])

  const POP_BATCH_SIZE := 24

  function Lookup(sets: map<MatchID, set<string>>, id: MatchID): set<string> {
    if id in sets then sets[id] else {}
  }

  predicate IsForming(db: Db, id: MatchID) {
    id in db.status && db.status[id] == Forming
  }

  function Elements<T>(xs: seq<T>): set<T> {
    set x | x in xs
  }

  // ---- queue ------------------------------------------------------------------

  function Enqueue(db: Db, m: Member, score: int): Db {
    db.(queue := db.queue[m := score])
  }

  function Cancel(db: Db, p: string): Db {
    db.(cancelled := db.cancelled + {p})
  }

  /** What ZPOPMIN may return: the least scores, in order; ties are broken by the raw
      texts of the members, which are abstract here, so any tie order is allowed. */
  predicate PopMin(queue: map<Member, int>, count: nat, batch: seq<Member>) {
    && |batch| == (if count <= |queue| then count else |queue|)
    && (forall i :: 0 <= i < |batch| ==> batch[i] in queue)
    && (forall i, j :: 0 <= i < j < |batch| ==> batch[i] != batch[j] && queue[batch[i]] <= queue[batch[j]])
    && (forall i, m :: 0 <= i < |batch| && m in queue && m !in batch ==> queue[batch[i]] <= queue[m])
  }

  function Pop(db: Db, batch: seq<Member>): Db
    requires forall m :: m in batch ==> m in db.queue
  {
    db.(queue := db.queue - Elements(batch),
        processing := db.processing + (map m | m in Elements(batch) :: db.queue[m]))
  }

  function Drain(db: Db): Db {
    db.(queue := db.queue + db.processing, processing := map[])
  }

  /** SREM of the players that the worker has discarded. */
  function Uncancel(db: Db, players: set<string>): Db {
    db.(cancelled := db.cancelled - players)
  }

  function Unprocess(db: Db, members: set<Member>): Db {
    db.(processing := db.processing - members)
  }

  // ---- matches ----------------------------------------------------------------

  predicate CommitAllowed(db: Db, playerIDs: seq<string>) {
    forall p :: p in playerIDs ==> p !in db.cancelled
  }

  function Commit(db: Db, members: seq<Member>, rec: Match): Db {
    if !CommitAllowed(db, rec.playerIDs) then db
    else db.(
      records := db.records[rec.id := rec],
      status := db.status[rec.id := Forming],
      forming := db.forming[rec.id := UnixMilli(rec.formedAt)],
      processing := db.processing - Elements(members),
      stream := db.stream + [rec])
  }

  function AcceptReply(db: Db, id: MatchID, p: string): int {
    if !IsForming(db, id) then -1
    else if p in Lookup(db.declined, id) then -2
    else if p in Lookup(db.accepted, id) then -3
    else |Lookup(db.accepted, id) + {p}|
  }

  function Accept(db: Db, id: MatchID, p: string): Db {
    if AcceptReply(db, id, p) < 0 then db
    else db.(accepted := db.accepted[id := Lookup(db.accepted, id) + {p}])
  }

  function DeclineReply(db: Db, id: MatchID, p: string): int {
    if !IsForming(db, id) then -1
    else if p in Lookup(db.declined, id) then 0
    else 1
  }

  function Decline(db: Db, id: MatchID, p: string): Db {
    if !IsForming(db, id) then db
    else db.(declined := db.declined[id := Lookup(db.declined, id) + {p}])
  }

  /** The common part of confirm and dissolve. */
  function Settle(db: Db, id: MatchID, to: Status): Db {
    db.(
      status := db.status[id := to],
      forming := db.forming - {id},
      records := if id in db.records then db.records[id := db.records[id].(status := to)] else db.records)
  }

  function Confirm(db: Db, id: MatchID): Db {
    if IsForming(db, id) then Settle(db, id, Confirmed) else db
  }

  /** The members that a dissolve puts back. */
  function Kept(db: Db, declined: string, entries: seq<QueueEntry>): (kept: set<Member>)
    ensures forall m :: m in kept ==> m.Encoded? && m.entry in entries
  {
    set e | e in entries && e.playerID != declined && e.playerID !in db.cancelled :: Encoded(e)
  }

  function Requeue(queue: map<Member, int>, members: set<Member>): map<Member, int>
    requires forall m :: m in members ==> m.Encoded?
  {
    queue + (map m | m in members :: UnixMilli(m.entry.enqueuedAt))
  }

  function Dissolve(db: Db, id: MatchID, declined: string, entries: seq<QueueEntry>): Db {
    if IsForming(db, id)
    then Settle(db, id, Dissolved).(queue := Requeue(db.queue, Kept(db, declined, entries)))
    else db
  }
}

/** At-least-once delivery of committed matches to PostgreSQL: the consumer group of the
    match stream, the worker's two read paths and the idempotent insert. */
module Stream {
  import opened Model
  import opened Scripts
  import opened Protocol
  import opened Conservation
  import opened Matches

  /** Message i is the i-th XADD ever. The group has delivered everything before next; pel
      holds the delivered and not acknowledged ones; messages before first are trimmed. */
  datatype Group = Group(
    first: nat,
    next: nat,
    pel: set<nat>,
    acked: set<nat>,
    rows: map<MatchID, Match>,
    hand: map<nat, bool>)       // messages the worker is processing; true once inserted

  const EMPTY_GROUP := Group(0, 0, {}, {}, map[], map[])

  datatype Event =
    | Trim(first: nat)
    | Read(count: nat, lost: bool)              // XREADGROUP ">"
    | Claim(from: nat, to: nat, lost: bool)     // XAUTOCLAIM of pending messages in [from, to)
    | Insert(i: nat)                            // INSERT ... ON CONFLICT DO NOTHING
    | Ack(i: nat)                               // with or without a reply
    | Fail(i: nat)                              // an insert or an ack that returned an error
    | Crash

  predicate CanHappen(log: seq<Match>, g: Group, ev: Event) {
    match ev
    case Trim(first) => g.first <= first && first + STREAM_MAX_LEN <= |log|
    case Read(count, _) => Max(g.first, g.next) + count <= |log|
    case Claim(from, to, _) => from <= to
    case Insert(i) => i in g.hand && i < |log|
    case Ack(i) => i in g.hand && g.hand[i]
    case Fail(i) => i in g.hand
    case Crash => true
  }

  function Max(a: nat, b: nat): nat {
    if a < b then b else a
  }

  /** INSERT ... ON CONFLICT (id) DO NOTHING. */
  function InsertRow(rows: map<MatchID, Match>, m: Match): map<MatchID, Match> {
    if m.id in rows then rows else rows[m.id := m]
  }

  function Span(a: nat, b: nat): (s: set<nat>)
    ensures forall i :: i in s <==> a <= i < b
  {
    if a >= b then {} else Span(a, b - 1) + {b - 1}
  }

  function Happen(log: seq<Match>, g: Group, ev: Event): Group
    requires CanHappen(log, g, ev)
  {
    match ev
    case Trim(first) => g.(first := first)
    case Read(count, lost) =>
      var start := Max(g.first, g.next);
      var msgs := Span(start, start + count);
      g.(next := start + count, pel := g.pel + msgs,
         hand := if lost then g.hand else g.hand + (map i | i in msgs :: false))
    case Claim(from, to, lost) =>
      // entries whose message was trimmed are dropped from the pending list
      var gone := set i | i in g.pel && from <= i < to && i < g.first;
      var msgs := set i | i in g.pel && from <= i < to && i >= g.first;
      g.(pel := g.pel - gone,
         hand := if lost then g.hand else g.hand + (map i | i in msgs :: i in g.hand && g.hand[i]))
    case Insert(i) => g.(rows := InsertRow(g.rows, log[i]), hand := g.hand[i := true])
    case Ack(i) => g.(pel := g.pel - {i}, acked := if i in g.pel then g.acked + {i} else g.acked, hand := g.hand - {i})
    case Fail(i) => g.(hand := g.hand - {i})
    case Crash => g.(hand := map[])
  }

  // ---- what every step keeps -----------------------------------------------------------

  /** The messages that trimming may have taken: those with a thousand after them. */
  predicate Outrun(log: seq<Match>, i: nat) {
    i + 1000 <= |log|
  }

  ghost predicate Sound(log: seq<Match>, g: Group) {
    && g.next <= |log|
    && (g.first == 0 || g.first + STREAM_MAX_LEN <= |log|)
    && (forall i :: i in g.pel || i in g.acked || i in g.hand ==> i < g.next)
    && (forall i :: i in g.hand && g.hand[i] ==> log[i].id in g.rows)
    && (forall i :: i in g.acked ==> log[i].id in g.rows)
    && (forall i :: 0 <= i < g.next ==> i in g.pel || i in g.acked || i < g.first)
    && (forall id :: id in g.rows ==> exists i :: 0 <= i < |log| && log[i] == g.rows[id] && log[i].id == id)
  }

  lemma SoundStep(log: seq<Match>, g: Group, ev: Event)
    requires Sound(log, g) && CanHappen(log, g, ev)
    ensures Sound(log, Happen(log, g, ev))
  {
    match ev
    case Insert(i) => InsertSound(log, g, i);
    case Read(count, lost) => ReadSound(log, g, count, lost);
    case Claim(from, to, lost) => ClaimSound(log, g, from, to, lost);
    case _ =>
  }

  lemma ReadSound(log: seq<Match>, g: Group, count: nat, lost: bool)
    requires Sound(log, g) && CanHappen(log, g, Read(count, lost))
    ensures Sound(log, Happen(log, g, Read(count, lost)))
  {
  }

  lemma ClaimSound(log: seq<Match>, g: Group, from: nat, to: nat, lost: bool)
    requires Sound(log, g) && from <= to
    ensures Sound(log, Happen(log, g, Claim(from, to, lost)))
  {
  }

  lemma InsertSound(log: seq<Match>, g: Group, i: nat)
    requires Sound(log, g) && i in g.hand
    ensures Sound(log, g.(rows := InsertRow(g.rows, log[i]), hand := g.hand[i := true]))
  {
    var rows := InsertRow(g.rows, log[i]);
    assert forall id :: id in rows && id !in g.rows ==> id == log[i].id;
  }

  lemma SoundAppend(log: seq<Match>, g: Group, m: Match)
    requires Sound(log, g)
    ensures Sound(log + [m], g)
  {
    forall id | id in g.rows
      ensures exists i :: 0 <= i < |log + [m]| && (log + [m])[i] == g.rows[id] && (log + [m])[i].id == id
    {
      var i :| 0 <= i < |log| && log[i] == g.rows[id] && log[i].id == id;
      assert (log + [m])[i] == log[i];
    }
  }

  // ---- the stream is the history of the commits ------------------------------------------

  ghost predicate Announces(s: Sys, i: nat, id: MatchID) {
    i < |s.db.stream| && s.db.stream[i].id == id && id in s.db.records && SameMatch(s.db.stream[i], s.db.records[id])
  }

  ghost predicate Logged(s: Sys) {
    && (forall i :: 0 <= i < |s.db.stream| ==> Announces(s, i, s.db.stream[i].id))
    && (forall i, j :: 0 <= i < j < |s.db.stream| ==> s.db.stream[i].id != s.db.stream[j].id)
    && (forall id :: id in s.db.records ==> exists i: nat :: Announces(s, i, id))
  }

  lemma StreamFrame(cfg: Config, s: Sys, a: Action)
    requires cfg.n >= 1 && Enabled(cfg, s, a) && !a.TryCommit?
    ensures Apply(cfg, s, a).db.stream == s.db.stream
  {
    hide PopMin, Parse, Flagged, CommitAllowed, MembersOf, UnixMilli, Kept, Requeue;
    if ByWorker(a) {
      WorkerFrame(cfg, s, a);
    } else if Opens(a) {
      OpenFrame(cfg, s, a);
    } else if Quiet(a) {
      ServeFrame(cfg, s, a);
    }
  }

  lemma CommitLogged(cfg: Config, s: Sys, now: int, fate: Fate)
    requires Logged(s) && s.worker.Up? && s.worker.pc.Committing?
    requires NewMatch(cfg, s.worker.pc.group, now, s.worker.seqNo + 1).id !in s.db.records
    ensures var t := DoTryCommit(cfg, s, now, fate);
      Logged(t) && (t.db.stream == s.db.stream || exists m :: t.db.stream == s.db.stream + [m])
  {
    var t := DoTryCommit(cfg, s, now, fate);
    var rec := NewMatch(cfg, s.worker.pc.group, now, s.worker.seqNo + 1);
    if t.db != s.db {
      LoggedAppend(s, t, rec);
    }
  }

  lemma SameItself(m: Match)
    ensures SameMatch(m, m)
  {
  }

  lemma StillAnnounced(s: Sys, t: Sys, rec: Match)
    requires rec.id !in s.db.records
    requires t.db.stream == s.db.stream + [rec] && t.db.records == s.db.records[rec.id := rec]
    ensures forall i: nat, id :: Announces(s, i, id) ==> Announces(t, i, id)
  {
    hide SameMatch;
  }

  lemma LoggedAppend(s: Sys, t: Sys, rec: Match)
    requires Logged(s) && rec.id !in s.db.records
    requires t.db.stream == s.db.stream + [rec] && t.db.records == s.db.records[rec.id := rec]
    ensures Logged(t)
  {
    hide SameMatch;
    assert SameMatch(rec, rec) by { SameItself(rec); }
    StillAnnounced(s, t, rec);
    assert Announces(t, |s.db.stream|, rec.id);
    forall id | id in t.db.records
      ensures exists i: nat :: Announces(t, i, id)
    {
      if id != rec.id {
        var i: nat :| Announces(s, i, id);
        assert Announces(t, i, id);
      }
    }
    forall i, j | 0 <= i < j < |t.db.stream|
      ensures t.db.stream[i].id != t.db.stream[j].id
    {
      assert Announces(s, i, s.db.stream[i].id);
    }
  }

  lemma LoggedStep(cfg: Config, s: Sys, a: Action)
    requires Inv(cfg, s) && Logged(s) && Enabled(cfg, s, a)
    ensures var t := Apply(cfg, s, a);
      Logged(t) && (t.db.stream == s.db.stream || exists m :: t.db.stream == s.db.stream + [m])
  {
    if a.TryCommit? {
      FreshMatch(cfg, s, a.now);
      CommitLogged(cfg, s, a.now, a.fate);
    } else {
      StreamFrame(cfg, s, a);
      KeepLogged(cfg, s, a);
    }
  }

  lemma KeepLogged(cfg: Config, s: Sys, a: Action)
    requires Inv(cfg, s) && Logged(s) && Enabled(cfg, s, a) && !a.TryCommit?
    requires Apply(cfg, s, a).db.stream == s.db.stream
    ensures Logged(Apply(cfg, s, a))
  {
    var t := Apply(cfg, s, a);
    hide Apply, Enabled, Logged;
    forall id | id in s.db.records
      ensures id in t.db.records && SameMatch(t.db.records[id], s.db.records[id])
    {
      assert GoodRecord(cfg, s, id);
      MatchFollows(cfg, s, a, id);
    }
    OnlyCommitAdds(cfg, s, a);
    LoggedFrame(s, t);
  }

  lemma LoggedFrame(s: Sys, t: Sys)
    requires Logged(s) && t.db.stream == s.db.stream && t.db.records.Keys == s.db.records.Keys
    requires forall id :: id in s.db.records && id in t.db.records ==> SameMatch(t.db.records[id], s.db.records[id])
    ensures Logged(t)
  {
    forall i: nat, id
      ensures Announces(s, i, id) ==> Announces(t, i, id)
    {
    }
  }

  // ---- the protocol and the delivery side by side ---------------------------------------

  datatype Joint = Joint(s: Sys, g: Group)

  datatype Turn = Shard(a: Action) | Delivery(ev: Event)

  ghost predicate Turns(cfg: Config, j: Joint, t: Turn, k: Joint)
    requires cfg.n >= 1
  {
    match t
    case Shard(a) => Enabled(cfg, j.s, a) && k == j.(s := Apply(cfg, j.s, a))
    case Delivery(ev) => CanHappen(j.s.db.stream, j.g, ev) && k == j.(g := Happen(j.s.db.stream, j.g, ev))
  }

  ghost predicate IsJointRun(cfg: Config, js: seq<Joint>, ts: seq<Turn>)
    requires cfg.n >= 1
  {
    && |js| == |ts| + 1 && js[0] == Joint(INITIAL, EMPTY_GROUP)
    && forall i :: 0 <= i < |ts| ==> Turns(cfg, js[i], ts[i], js[i + 1])
  }

  ghost predicate JointInv(cfg: Config, j: Joint) {
    Inv(cfg, j.s) && Logged(j.s) && Sound(j.s.db.stream, j.g)
  }

  lemma {:induction false} JointRun(cfg: Config, js: seq<Joint>, ts: seq<Turn>, i: nat)
    requires cfg.n >= 1 && IsJointRun(cfg, js, ts) && i <= |ts|
    ensures JointInv(cfg, js[i])
  {
    hide Apply, Enabled, Inv, Happen, CanHappen, Sound, Logged;
    if i == 0 {
      InvInitially(cfg);
      EmptyIsSound();
    } else {
      JointRun(cfg, js, ts, i - 1);
      JointTurn(cfg, js[i - 1], ts[i - 1], js[i]);
    }
  }

  lemma EmptyIsSound()
    ensures Sound(INITIAL.db.stream, EMPTY_GROUP) && Logged(INITIAL)
  {
  }

  lemma JointTurn(cfg: Config, j: Joint, t: Turn, k: Joint)
    requires cfg.n >= 1 && JointInv(cfg, j) && Turns(cfg, j, t, k)
    ensures JointInv(cfg, k)
  {
    hide Apply, Enabled, Inv, Happen, CanHappen, Sound, Logged;
    match t
    case Shard(a) =>
      InvStep(cfg, j.s, a);
      LoggedStep(cfg, j.s, a);
      if m :| k.s.db.stream == j.s.db.stream + [m] {
        SoundAppend(j.s.db.stream, j.g, m);
      }
    case Delivery(ev) => SoundStep(j.s.db.stream, j.g, ev);
  }

  /** Stored; or still in the stream and undelivered or pending; or trimmed with a thousand
      messages from it on. */
  ghost predicate Accounted(j: Joint, i: nat, id: MatchID) {
    || id in j.g.rows
    || (i >= j.g.first && (i >= j.g.next || i in j.g.pel))
    || (i < j.g.first && Outrun(j.s.db.stream, i))
  }

  ghost predicate JointReachable(cfg: Config, j: Joint) {
    cfg.n >= 1 && exists js: seq<Joint>, ts: seq<Turn> :: IsJointRun(cfg, js, ts) && js[|ts|] == j
  }

  lemma JointReachableInv(cfg: Config, j: Joint)
    requires JointReachable(cfg, j)
    ensures JointInv(cfg, j)
  {
    var js: seq<Joint>, ts: seq<Turn> :| IsJointRun(cfg, js, ts) && js[|ts|] == j;
    JointRun(cfg, js, ts, |ts|);
  }

  lemma DeliveryReaches(cfg: Config, j: Joint, ev: Event)
    requires JointReachable(cfg, j) && CanHappen(j.s.db.stream, j.g, ev)
    ensures JointReachable(cfg, j.(g := Happen(j.s.db.stream, j.g, ev)))
  {
    hide Happen, CanHappen, Apply, Enabled;
    var k := j.(g := Happen(j.s.db.stream, j.g, ev));
    var js: seq<Joint>, ts: seq<Turn> :| IsJointRun(cfg, js, ts) && js[|ts|] == j;
    var longer, more := js + [k], ts + [Delivery(ev)];
    assert IsJointRun(cfg, longer, more) && longer[|more|] == k;
  }

  /** In every reachable state every committed match is announced by a message that is still
      in the stream and undelivered or pending, or is stored, crash points included - unless
      at least a thousand matches were committed from it on and trimming took the message. */
  lemma CommittedIsDelivered(cfg: Config, j: Joint, id: MatchID)
    requires JointReachable(cfg, j) && id in j.s.db.records
    ensures exists i: nat :: Announces(j.s, i, id) && Accounted(j, i, id)
  {
    hide JointReachable, Inv;
    JointReachableInv(cfg, j);
    var i: nat :| Announces(j.s, i, id);
    assert Accounted(j, i, id);
  }

  /** Stored rows come from committed matches only, one row per match and with its players;
      an acknowledged message is stored. Claiming and redelivery cannot change that. */
  lemma StoredIsCommitted(cfg: Config, j: Joint, id: MatchID)
    requires JointReachable(cfg, j)
    ensures id in j.g.rows ==> id in j.s.db.records && SameMatch(j.g.rows[id], j.s.db.records[id])
    ensures forall i :: i in j.g.acked ==> i < |j.s.db.stream| && j.s.db.stream[i].id in j.g.rows
  {
    hide JointReachable, Inv;
    JointReachableInv(cfg, j);
    if id in j.g.rows {
      var i :| 0 <= i < |j.s.db.stream| && j.s.db.stream[i] == j.g.rows[id] && j.s.db.stream[i].id == id;
      assert Announces(j.s, i, id);
    }
  }

  // ---- reading and claiming -----------------------------------------------------------------

  const CLAIM_COUNT := 100
  const READ_COUNT := 10

  /** How the processing of a message ends; the acknowledgement may also be carried out
      and its reply lost. */
  datatype Fault = NoFault | InsertFails | AckFails | AckUnanswered

  predicate Stores(f: Fault) {
    !f.InsertFails?
  }

  predicate Acknowledges(f: Fault) {
    f.NoFault? || f.AckUnanswered?
  }

  /** Rows that were there are as they were, and new ones come from the sources. */
  ghost predicate RowsExtend(log: seq<Match>, before: map<MatchID, Match>, rows: map<MatchID, Match>, sources: set<nat>) {
    && (forall id :: id in before ==> id in rows && rows[id] == before[id])
    && (forall id :: id in rows && id !in before ==>
          exists i :: i in sources && i < |log| && rows[id] == log[i] && log[i].id == id)
  }

  lemma RowInserted(log: seq<Match>, before: map<MatchID, Match>, rows: map<MatchID, Match>, sources: set<nat>, i: nat)
    requires RowsExtend(log, before, rows, sources) && i in sources && i < |log|
    ensures RowsExtend(log, before, InsertRow(rows, log[i]), sources) && log[i].id in InsertRow(rows, log[i])
    ensures forall id :: id in rows ==> id in InsertRow(rows, log[i])
  {
  }

  /** The first k messages whose processing acknowledges them. */
  function Acked(msgs: seq<nat>, faults: nat -> Fault, k: nat): set<nat>
    requires k <= |msgs|
  {
    if k == 0 then {} else Acked(msgs, faults, k - 1) + if Acknowledges(faults(msgs[k - 1])) then {msgs[k - 1]} else {}
  }

  lemma AckOne(msgs: seq<nat>, faults: nat -> Fault, k: nat)
    requires k < |msgs|
    ensures Acked(msgs, faults, k + 1) == Acked(msgs, faults, k) + if Acknowledges(faults(msgs[k])) then {msgs[k]} else {}
  {
  }

  /** The first k messages are stored, where their processing stores them, beside the rows
      that were there. */
  ghost predicate StoredUpTo(
      log: seq<Match>, first: map<MatchID, Match>, rows: map<MatchID, Match>, msgs: seq<nat>, faults: nat -> Fault, k: nat) {
    && k <= |msgs| && first.Keys <= rows.Keys
    && forall j :: 0 <= j < k && msgs[j] < |log| && Stores(faults(msgs[j])) ==> log[msgs[j]].id in rows
  }

  lemma NothingStored(log: seq<Match>, rows: map<MatchID, Match>, msgs: seq<nat>, faults: nat -> Fault)
    ensures StoredUpTo(log, rows, rows, msgs, faults, 0)
  {
  }

  lemma StoreOne(
      log: seq<Match>, first: map<MatchID, Match>, rows: map<MatchID, Match>, msgs: seq<nat>, faults: nat -> Fault, k: nat)
    requires StoredUpTo(log, first, rows, msgs, faults, k) && k < |msgs| && msgs[k] < |log|
    ensures var next := if Stores(faults(msgs[k])) then InsertRow(rows, log[msgs[k]]) else rows;
      StoredUpTo(log, first, next, msgs, faults, k + 1)
  {
    hide Stores;
  }

  lemma AllStored(log: seq<Match>, first: map<MatchID, Match>, rows: map<MatchID, Match>, msgs: seq<nat>, faults: nat -> Fault)
    requires StoredUpTo(log, first, rows, msgs, faults, |msgs|)
    ensures forall i :: i in msgs && i < |log| && Stores(faults(i)) ==> log[i].id in rows
    ensures forall id :: id in first ==> id in rows
  {
  }

  lemma {:induction false} AckedAre(msgs: seq<nat>, faults: nat -> Fault, k: nat)
    requires k <= |msgs|
    ensures forall i :: i in Acked(msgs, faults, k) <==> i in msgs[..k] && Acknowledges(faults(i))
    ensures k == 0 ==> Acked(msgs, faults, k) == {}
    ensures msgs[..|msgs|] == msgs
  {
    if k > 0 {
      AckedAre(msgs, faults, k - 1);
      assert msgs[..k] == msgs[..k - 1] + [msgs[k - 1]];
    }
  }

  /** The stream's pending list and the table, changed in place while the worker starts and
      nobody commits. Every change is an event of the delivery machine, so the theorems about
      its reachable states hold of the program. */
  class Consumer {
    const log: seq<Match>
    const first: nat
    var next: nat
    var pel: set<nat>
    var rows: map<MatchID, Match>
    ghost const cfg: Config
    ghost const shard: Sys
    ghost var g: Group

    ghost predicate Valid()
      reads this
    {
      && JointReachable(cfg, Joint(shard, g)) && log == shard.db.stream
      && g.first == first && g.next == next && g.pel == pel && g.rows == rows
    }

    constructor (
        log: seq<Match>, first: nat, next: nat, pel: set<nat>, rows: map<MatchID, Match>, ghost cfg: Config, ghost j: Joint)
      requires JointReachable(cfg, j) && log == j.s.db.stream
      requires j.g.first == first && j.g.next == next && j.g.pel == pel && j.g.rows == rows
      ensures Valid() && this.log == log && this.first == first && this.next == next && this.pel == pel && this.rows == rows
      ensures this.cfg == cfg && this.shard == j.s && this.g == j.g
    {
      this.log, this.first, this.next, this.pel, this.rows := log, first, next, pel, rows;
      this.cfg, this.shard, this.g := cfg, j.s, j.g;
    }

    lemma Pending()
      requires Valid()
      ensures (forall i :: i in pel ==> i < next) && next <= |log| && first <= |log|
    {
      hide JointReachable, Inv;
      JointReachableInv(cfg, Joint(shard, g));
    }

    /** XREADGROUP ">": the next ten messages at most that were not delivered yet, in order;
        they are pending from now on, whether or not the reply comes. */
    method XReadGroup(lost: bool) returns (msgs: seq<nat>)
      requires Valid()
      modifies this`next, this`pel, this`g
      ensures Valid()
      ensures var from := Max(first, old(next));
        && next == (if |log| - from < 10 then |log| else from + 10)
        && (forall i :: i in pel <==> i in old(pel) || from <= i < next)
        && |msgs| == (if lost then 0 else next - from) && (forall i :: 0 <= i < |msgs| ==> msgs[i] == from + i)
      ensures forall i :: i in msgs ==> i in g.hand
    {
      hide JointReachable;
      Pending();
      var from := Max(first, next);
      var count := if |log| - from < READ_COUNT then |log| - from else READ_COUNT;
      DeliveryReaches(cfg, Joint(shard, g), Read(count, lost));
      ghost var h := Happen(log, g, Read(count, lost));
      var rest: nat := count;
      msgs := [];
      while rest > 0
        invariant rest <= count && |msgs| == count - rest && g == old(g)
        invariant forall i :: 0 <= i < |msgs| ==> msgs[i] == from + i
        invariant forall i :: i in pel <==> i in old(pel) || from <= i < from + |msgs|
      {
        pel := pel + {from + |msgs|};
        msgs := msgs + [from + |msgs|];
        rest := rest - 1;
      }
      assert h.pel == pel;
      next := from + count;
      if lost {
        msgs := [];
      }
      g := h;
    }

    /** One turn of the consumer loop: every message that is read is stored and acknowledged,
        unless its processing fails; the others stay pending. */
    method ConsumeTurn(lost: bool, faults: nat -> Fault)
      requires Valid()
      modifies this`next, this`pel, this`rows, this`g
      ensures Valid()
      ensures var from := Max(first, old(next));
        && next == (if |log| - from < 10 then |log| else from + 10)
        && (forall i :: i in pel <==>
              (i in old(pel) || from <= i < next) && !(from <= i < next && !lost && Acknowledges(faults(i))))
        && (forall i :: from <= i < next && i < |log| && !lost && Stores(faults(i)) ==> log[i].id in rows)
      ensures RowsExtend(log, old(rows), rows, if lost then {} else Span(Max(first, old(next)), next))
    {
      hide JointReachable, Happen, Acknowledges, Stores;
      Pending();
      ghost var from := Max(first, next);
      var msgs := XReadGroup(lost);
      assert next <= |log| by { Pending(); }
      ghost var sources := if lost then {} else Span(from, next);
      ReadSources(log, msgs, from, next, lost);
      SameRows(log, rows, sources);
      ProcessAll(msgs, faults, rows, sources);
    }

    lemma SameRows(log: seq<Match>, rows: map<MatchID, Match>, sources: set<nat>)
      ensures RowsExtend(log, rows, rows, sources)
    {
    }

    lemma ReadSources(log: seq<Match>, msgs: seq<nat>, from: nat, next: nat, lost: bool)
      requires from <= next <= |log|
      requires |msgs| == (if lost then 0 else next - from) && (forall i :: 0 <= i < |msgs| ==> msgs[i] == from + i)
      ensures forall i :: i in msgs <==> !lost && from <= i < next
      ensures forall j, k :: 0 <= j < k < |msgs| ==> msgs[j] < msgs[k]
    {
      if !lost {
        forall i: nat | from <= i < next
          ensures i in msgs
        {
          assert msgs[i - from] == i;
        }
      }
    }

    /** Up to a hundred pending messages from a cursor on, in order, and the next cursor; the
        pending entries of trimmed messages are dropped on the way. */
    method XAutoClaim(start: nat) returns (msgs: seq<nat>, next: nat)
      requires Valid() && start <= |log|
      modifies this`pel, this`g
      ensures start <= next <= |log| && (start < |log| ==> start < next)
      ensures Valid() && g == Happen(log, old(g), Claim(start, next, false))
      ensures forall i :: i in pel <==> i in old(pel) && !(start <= i < next && i < first)
      ensures forall i :: i in msgs <==> i in old(pel) && start <= i < next && first <= i
      ensures forall j, k :: 0 <= j < k < |msgs| ==> msgs[j] < msgs[k]
      ensures forall i :: i in msgs ==> i in g.hand
      ensures |msgs| <= CLAIM_COUNT
    {
      hide JointReachable;
      msgs, next := [], start;
      while next < |log| && |msgs| < CLAIM_COUNT
        invariant start <= next <= |log| && |msgs| <= CLAIM_COUNT && g == old(g)
        invariant next == start ==> msgs == []
        invariant forall i :: i in pel <==> i in old(pel) && !(start <= i < next && i < first)
        invariant forall i :: i in msgs <==> i in old(pel) && start <= i < next && first <= i
        invariant forall j, k :: 0 <= j < k < |msgs| ==> msgs[j] < msgs[k]
      {
        if next in pel {
          if next < first {
            pel := pel - {next};
          } else {
            assert forall j :: 0 <= j < |msgs| ==> msgs[j] in msgs;
            msgs := msgs + [next];
          }
        }
        next := next + 1;
      }
      DeliveryReaches(cfg, Joint(shard, g), Claim(start, next, false));
      ghost var h := Happen(log, g, Claim(start, next, false));
      assert h.pel == pel;
      g := h;
    }

    /** Insert, then acknowledge; either may fail and leaves the message pending. */
    method ProcessStreamEntry(i: nat, fault: Fault) returns (ok: bool)
      requires Valid() && i in g.hand && i < |log|
      modifies this`pel, this`rows, this`g
      ensures Valid() && g.hand == old(g.hand) - {i}
      ensures ok <==> fault.NoFault?
      ensures pel == if Acknowledges(fault) then old(pel) - {i} else old(pel)
      ensures rows == if Stores(fault) then InsertRow(old(rows), log[i]) else old(rows)
    {
      hide JointReachable;
      if fault.InsertFails? {
        Deliver(Fail(i));
        return false;
      }
      DeliveryReaches(cfg, Joint(shard, g), Insert(i));
      if log[i].id !in rows {
        rows := rows[log[i].id := log[i]];
      }
      g := Happen(log, g, Insert(i));
      if fault.AckFails? {
        Deliver(Fail(i));
        return false;
      }
      DeliveryReaches(cfg, Joint(shard, g), Ack(i));
      pel := pel - {i};
      g := Happen(log, g, Ack(i));
      ok := fault.NoFault?;
    }

    /** An event that changes only what the worker has in hand. */
    ghost method Deliver(ev: Event)
      requires Valid() && ev.Fail? && ev.i in g.hand
      modifies this`g
      ensures Valid() && g == old(g).(hand := old(g).hand - {ev.i})
    {
      hide JointReachable;
      DeliveryReaches(cfg, Joint(shard, g), ev);
      g := Happen(log, g, ev);
    }

    /** The startup loop over the cursor: whatever was pending and is not trimmed ends up
        stored and acknowledged, except for the messages whose processing failed; rows that
        were there stay as they are, and new ones come from pending messages only. */
    method ClaimStale(faults: nat -> Fault)
      requires Valid()
      modifies this`pel, this`rows, this`g
      ensures Valid()
      ensures forall i :: i in pel <==> i in old(pel) && first <= i && !Acknowledges(faults(i))
      ensures forall i :: i in old(pel) && first <= i && i < |log| && Stores(faults(i)) ==> log[i].id in rows
      ensures RowsExtend(log, old(rows), rows, old(pel))
    {
      hide JointReachable, Happen;
      Pending();
      var start := 0;
      while start < |log|
        invariant Valid() && start <= |log|
        invariant forall i :: i in pel <==> i in old(pel) && (i < start ==> first <= i && !Acknowledges(faults(i)))
        invariant forall i :: i in old(pel) && first <= i < start && Stores(faults(i)) ==> log[i].id in rows
        invariant RowsExtend(log, old(rows), rows, old(pel))
      {
        var msgs, next := XAutoClaim(start);
        ProcessAll(msgs, faults, old(rows), old(pel));
        start := next;
      }
    }

    method ProcessAll(msgs: seq<nat>, faults: nat -> Fault, ghost before: map<MatchID, Match>, ghost sources: set<nat>)
      requires Valid()
      requires forall i :: i in msgs ==> i < |log| && i in sources && i in g.hand
      requires forall j, k :: 0 <= j < k < |msgs| ==> msgs[j] < msgs[k]
      requires RowsExtend(log, before, rows, sources)
      modifies this`pel, this`rows, this`g
      ensures Valid()
      ensures forall i :: i in pel <==> i in old(pel) && !(i in msgs && Acknowledges(faults(i)))
      ensures forall i :: i in msgs && i < |log| && Stores(faults(i)) ==> log[i].id in rows
      ensures forall id :: id in old(rows) ==> id in rows
      ensures RowsExtend(log, before, rows, sources)
    {
      hide JointReachable, RowsExtend, InsertRow, Acknowledges, Stores, StoredUpTo, Acked;
      AckedAre(msgs, faults, 0);
      NothingStored(log, rows, msgs, faults);
      for k := 0 to |msgs|
        invariant Valid()
        invariant forall j :: k <= j < |msgs| ==> msgs[j] in g.hand
        invariant pel == old(pel) - Acked(msgs, faults, k)
        invariant StoredUpTo(log, old(rows), rows, msgs, faults, k) && RowsExtend(log, before, rows, sources)
      {
        assert msgs[k] in msgs;
        RowInserted(log, before, rows, sources, msgs[k]);
        StoreOne(log, old(rows), rows, msgs, faults, k);
        AckOne(msgs, faults, k);
        var ok := ProcessStreamEntry(msgs[k], faults(msgs[k]));
      }
      AckedAre(msgs, faults, |msgs|);
      AllStored(log, old(rows), rows, msgs, faults);
    }
  }
}

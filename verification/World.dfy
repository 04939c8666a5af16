/** All shards together: joins are routed by rating band, and the workers of one region
    and mode share the cancelled set. Each shard still runs the protocol of one shard. */
module World {
  import opened Model
  import opened RatingBand
  import opened Protocol
  import opened Conservation
  import opened Matches
  import opened Cancellation

  type Shards = map<Shard, Sys>

  datatype Event =
    | Enter(region: string, mode: string, e: QueueEntry)   // Join, routed by the entry's rating
    | On(shard: Shard, a: Action)                          // a step on one shard

  /** The key of the queue that a join goes to. */
  function Target(region: string, mode: string, e: QueueEntry): Shard {
    Shard(region, mode, ComputeRatingBand(e.rating))
  }

  predicate SamePool(a: Shard, b: Shard) {
    a.region == b.region && a.mode == b.mode
  }

  function ShardOf(ev: Event): Shard {
    match ev
    case Enter(region, mode, e) => Target(region, mode, e)
    case On(shard, _) => shard
  }

  function ActionOf(ev: Event): Action {
    match ev
    case Enter(_, _, e) => Join(e)
    case On(_, a) => a
  }

  ghost predicate Allowed(n: nat, w: Shards, ev: Event) {
    && ShardOf(ev) in w
    && (ev.On? ==> !ev.a.Join? && !ev.a.OtherShards?)
    && Enabled(Config(ShardOf(ev), n), w[ShardOf(ev)], ActionOf(ev))
  }

  /** The acting shard takes its step; its pool sees the new cancelled set. */
  ghost function Happen(n: nat, w: Shards, ev: Event): Shards
    requires n >= 1 && Allowed(n, w, ev)
  {
    var at := ShardOf(ev);
    var after := Apply(Config(at, n), w[at], ActionOf(ev));
    map t | t in w :: if t == at then after else w[t].(db := w[t].db.(cancelled := Shared(w, t, at, after)))
  }

  ghost function Shared(w: Shards, t: Shard, at: Shard, after: Sys): set<string>
    requires t in w
  {
    if SamePool(t, at) then after.db.cancelled else w[t].db.cancelled
  }

  ghost predicate IsHistory(n: nat, worlds: seq<Shards>, events: seq<Event>) {
    && n >= 1
    && |worlds| == |events| + 1
    && (forall t :: t in worlds[0] ==> worlds[0][t] == INITIAL)
    && (forall i :: 0 <= i < |events| ==>
          Allowed(n, worlds[i], events[i]) && worlds[i + 1] == Happen(n, worlds[i], events[i]))
  }

  // ---- projection on one shard ----------------------------------------------------------

  /** What one shard sees of an event. */
  function Seen(t: Shard, ev: Event, after: Sys): Action {
    if ShardOf(ev) == t then ActionOf(ev) else OtherShards(after.db.cancelled)
  }

  lemma SeenIsStep(n: nat, w: Shards, ev: Event, t: Shard)
    requires n >= 1 && Allowed(n, w, ev) && t in w
    ensures var cfg, w' := Config(t, n), Happen(n, w, ev);
      var a := Seen(t, ev, w'[t]);
      && w'.Keys == w.Keys
      && Enabled(cfg, w[t], a) && w'[t] == Apply(cfg, w[t], a)
  {
  }

  lemma {:induction false} SameShards(n: nat, worlds: seq<Shards>, events: seq<Event>, i: nat)
    requires IsHistory(n, worlds, events) && i <= |events|
    ensures worlds[i].Keys == worlds[0].Keys
  {
    hide Apply, Enabled;
    if i > 0 {
      SameShards(n, worlds, events, i - 1);
      assert worlds[i] == Happen(n, worlds[i - 1], events[i - 1]);
    }
  }

  ghost function TraceOf(t: Shard, worlds: seq<Shards>): seq<Sys>
    requires forall i :: 0 <= i < |worlds| ==> t in worlds[i]
  {
    seq(|worlds|, i requires 0 <= i < |worlds| => worlds[i][t])
  }

  ghost function ActsOf(t: Shard, worlds: seq<Shards>, events: seq<Event>): seq<Action>
    requires |worlds| == |events| + 1 && forall i :: 0 <= i < |worlds| ==> t in worlds[i]
  {
    seq(|events|, i requires 0 <= i < |events| => Seen(t, events[i], worlds[i + 1][t]))
  }

  /** Every shard of every history runs the protocol of one shard. */
  lemma Projection(n: nat, worlds: seq<Shards>, events: seq<Event>, t: Shard)
    requires IsHistory(n, worlds, events) && t in worlds[0]
    ensures forall i :: 0 <= i < |worlds| ==> t in worlds[i]
    ensures IsRun(Config(t, n), TraceOf(t, worlds), ActsOf(t, worlds, events))
    ensures TraceOf(t, worlds)[0] == INITIAL
  {
    hide Apply, Enabled, Allowed, Happen, Seen;
    forall i | 0 <= i < |worlds|
      ensures t in worlds[i]
    {
      SameShards(n, worlds, events, i);
    }
    forall i | 0 <= i < |events|
      ensures Enabled(Config(t, n), worlds[i][t], ActsOf(t, worlds, events)[i])
      ensures worlds[i + 1][t] == Apply(Config(t, n), worlds[i][t], ActsOf(t, worlds, events)[i])
    {
      SeenIsStep(n, worlds[i], events[i], t);
    }
  }

  /** The event behind a step of one shard, and the steps that events of that shard make. */
  function EventOf(t: Shard, a: Action): Event {
    if a.Join? then Enter(t.region, t.mode, a.e) else On(t, a)
  }

  predicate Own(t: Shard, a: Action) {
    !a.OtherShards? && (a.Join? ==> ComputeRatingBand(a.e.rating) == t.ratingBand)
  }

  ghost function Alone(t: Shard, trace: seq<Sys>): seq<Shards> {
    seq(|trace|, i requires 0 <= i < |trace| => map[t := trace[i]])
  }

  ghost function EventsOf(t: Shard, acts: seq<Action>): seq<Event> {
    seq(|acts|, i requires 0 <= i < |acts| => EventOf(t, acts[i]))
  }

  /** Conversely every run of one shard whose joins are of the shard's own band is a history
      of the system, in which that shard is alone. */
  lemma OneShardHistory(n: nat, t: Shard, trace: seq<Sys>, acts: seq<Action>)
    requires IsRun(Config(t, n), trace, acts) && trace[0] == INITIAL
    requires forall i :: 0 <= i < |acts| ==> Own(t, acts[i])
    ensures IsHistory(n, Alone(t, trace), EventsOf(t, acts))
  {
    hide Apply, Enabled;
    forall i | 0 <= i < |acts|
      ensures Allowed(n, Alone(t, trace)[i], EventsOf(t, acts)[i])
      ensures Alone(t, trace)[i + 1] == Happen(n, Alone(t, trace)[i], EventsOf(t, acts)[i])
    {
      AloneStep(n, t, trace[i], acts[i]);
    }
  }

  lemma AloneStep(n: nat, t: Shard, s: Sys, a: Action)
    requires n >= 1 && Enabled(Config(t, n), s, a) && Own(t, a)
    ensures Allowed(n, map[t := s], EventOf(t, a))
    ensures Happen(n, map[t := s], EventOf(t, a)) == map[t := Apply(Config(t, n), s, a)]
    ensures ShardOf(EventOf(t, a)) == t && ActionOf(EventOf(t, a)) == a
  {
    hide Apply, Enabled;
    assert ShardOf(EventOf(t, a)) == t && ActionOf(EventOf(t, a)) == a;
  }

  lemma ShardReachable(n: nat, worlds: seq<Shards>, events: seq<Event>, t: Shard, i: nat)
    requires IsHistory(n, worlds, events) && i <= |events| && t in worlds[0]
    ensures t in worlds[i] && Reachable(Config(t, n), worlds[i][t])
  {
    hide Apply, Enabled;
    Projection(n, worlds, events, t);
    RunPrefix(Config(t, n), TraceOf(t, worlds), ActsOf(t, worlds, events), i);
  }

  lemma RunPrefix(cfg: Config, trace: seq<Sys>, acts: seq<Action>, i: nat)
    requires IsRun(cfg, trace, acts) && trace[0] == INITIAL && i <= |acts|
    ensures Reachable(cfg, trace[i])
  {
    hide Apply, Enabled;
    IsRunPart(cfg, trace, acts, 0, i);
    assert trace[0..i + 1][0] == INITIAL && trace[0..i + 1][|acts[0..i]|] == trace[i];
  }

  lemma IsRunPart(cfg: Config, trace: seq<Sys>, acts: seq<Action>, i: nat, j: nat)
    requires IsRun(cfg, trace, acts) && i <= j <= |acts|
    ensures IsRun(cfg, trace[i..j + 1], acts[i..j])
  {
    hide Apply, Enabled;
    var trace', acts' := trace[i..j + 1], acts[i..j];
    forall k | 0 <= k < |acts'|
      ensures Enabled(cfg, trace'[k], acts'[k]) && trace'[k + 1] == Apply(cfg, trace'[k], acts'[k])
    {
      assert trace'[k] == trace[i + k] && acts'[k] == acts[i + k] && trace'[k + 1] == trace[i + k + 1];
    }
  }

  // ---- bands over the whole system --------------------------------------------------------

  ghost predicate InBand(t: Shard, s: Sys) {
    forall e :: Encoded(e) in s.hist.scores ==> ComputeRatingBand(e.rating) == t.ratingBand
  }

  lemma InBandStep(n: nat, w: Shards, ev: Event, t: Shard)
    requires n >= 1 && Allowed(n, w, ev) && t in w && InBand(t, w[t])
    ensures InBand(t, Happen(n, w, ev)[t])
  {
    if ShardOf(ev) == t {
      ScoresGrow(Config(t, n), w[t], ActionOf(ev));
      OnlyJoinsDecode(Config(t, n), w[t], ActionOf(ev));
    }
  }

  lemma OnlyJoinsDecode(cfg: Config, s: Sys, a: Action)
    requires cfg.n >= 1 && Enabled(cfg, s, a)
    ensures forall e :: Encoded(e) in Apply(cfg, s, a).hist.scores && Encoded(e) !in s.hist.scores ==> a == Join(e)
  {
    if ByWorker(a) && !a.TryCommit? {
      WorkerFrame(cfg, s, a);
    } else if Opens(a) {
      OpenFrame(cfg, s, a);
    } else if Quiet(a) {
      ServeFrame(cfg, s, a);
    }
  }

  lemma {:induction false} InBandAlways(n: nat, worlds: seq<Shards>, events: seq<Event>, t: Shard, i: nat)
    requires IsHistory(n, worlds, events) && i <= |events| && t in worlds[0]
    ensures t in worlds[i] && InBand(t, worlds[i][t])
  {
    hide Apply, Enabled;
    SameShards(n, worlds, events, i);
    if i > 0 {
      InBandAlways(n, worlds, events, t, i - 1);
      InBandStep(n, worlds[i - 1], events[i - 1], t);
    }
  }

  /** Every entry of every record, dissolved matches included, once joined. */
  ghost predicate Recorded(s: Sys) {
    forall id, e :: id in s.db.records && e in s.db.records[id].entries ==> Encoded(e) in s.hist.scores
  }

  lemma RecordedStep(cfg: Config, s: Sys, a: Action)
    requires Inv(cfg, s) && Recorded(s) && Enabled(cfg, s, a)
    ensures Recorded(Apply(cfg, s, a))
  {
    hide Apply, Enabled, DoTryCommit;
    var t := Apply(cfg, s, a);
    ScoresGrow(cfg, s, a);
    forall id, e | id in t.db.records && e in t.db.records[id].entries
      ensures Encoded(e) in t.hist.scores
    {
      if id in s.db.records {
        assert GoodRecord(cfg, s, id);
        MatchFollows(cfg, s, a, id);
      } else {
        NewRecordJoined(cfg, s, a, id, e);
      }
    }
  }

  lemma CommitIsTry(cfg: Config, s: Sys, now: int, fate: Fate)
    requires cfg.n >= 1 && Enabled(cfg, s, TryCommit(now, fate))
    ensures s.worker.Up? && s.worker.pc.Committing?
    ensures Apply(cfg, s, TryCommit(now, fate)) == DoTryCommit(cfg, s, now, fate)
  {
    hide DoTryCommit;
  }

  lemma CommitRecords(cfg: Config, s: Sys, now: int, fate: Fate, id: MatchID)
    requires cfg.n >= 1 && s.worker.Up? && s.worker.pc.Committing?
    requires id in DoTryCommit(cfg, s, now, fate).db.records && id !in s.db.records
    ensures DoTryCommit(cfg, s, now, fate).db.records[id].entries == EntriesOf(s.worker.pc.group)
  {
  }

  lemma NewRecordJoined(cfg: Config, s: Sys, a: Action, id: MatchID, e: QueueEntry)
    requires Inv(cfg, s) && Enabled(cfg, s, a) && id !in s.db.records
    requires id in Apply(cfg, s, a).db.records && e in Apply(cfg, s, a).db.records[id].entries
    ensures Encoded(e) in s.hist.scores
  {
    hide Apply, Enabled, DoTryCommit;
    if a.TryCommit? {
      CommitIsTry(cfg, s, a.now, a.fate);
      CommitRecords(cfg, s, a.now, a.fate, id);
      GroupMembers(s.worker.pc.group);
    } else {
      OnlyCommitAdds(cfg, s, a);
    }
  }

  lemma {:induction false} RecordedAlong(cfg: Config, trace: seq<Sys>, acts: seq<Action>, i: nat)
    requires IsRun(cfg, trace, acts) && trace[0] == INITIAL && i <= |acts|
    ensures Recorded(trace[i])
  {
    hide Apply, Enabled, Inv;
    InvInitially(cfg);
    if i > 0 {
      RecordedAlong(cfg, trace, acts, i - 1);
      InvRun(cfg, trace, acts, i - 1);
      RecordedStep(cfg, trace[i - 1], acts[i - 1]);
    }
  }

  lemma RecordsJoined(cfg: Config, s: Sys)
    requires Reachable(cfg, s)
    ensures Recorded(s)
  {
    hide Apply, Enabled;
    var trace: seq<Sys>, acts: seq<Action> :|
      IsRun(cfg, trace, acts) && trace[0] == INITIAL && trace[|acts|] == s;
    RecordedAlong(cfg, trace, acts, |acts|);
  }

  /** Wherever an entry is - queue, processing, a worker's hands or a match record, after any
      pops, pushes back, drains and dissolves - its rating belongs to the shard's band. */
  lemma EntriesStayInBand(n: nat, worlds: seq<Shards>, events: seq<Event>, t: Shard, i: nat, e: QueueEntry)
    requires IsHistory(n, worlds, events) && i <= |events| && t in worlds[0] && t in worlds[i]
    requires var s := worlds[i][t];
      || Encoded(e) in s.db.queue || Encoded(e) in s.db.processing
      || (s.worker.Up? && exists b :: (b in s.worker.buffer || b in InHand(s.worker.pc)) && b.entry == e)
      || (exists id :: id in s.db.records && e in s.db.records[id].entries)
    ensures ComputeRatingBand(e.rating) == t.ratingBand
  {
    ShardReachable(n, worlds, events, t, i);
    InBandAlways(n, worlds, events, t, i);
    InvReachable(Config(t, n), worlds[i][t]);
    RecordsJoined(Config(t, n), worlds[i][t]);
  }

  /** So two players of one match, rated inside the configured range, differ by at
      most 299. */
  lemma MatchSpread(n: nat, worlds: seq<Shards>, events: seq<Event>, t: Shard, i: nat, id: MatchID, d: QueueEntry, e: QueueEntry)
    requires IsHistory(n, worlds, events) && i <= |events| && t in worlds[0] && t in worlds[i]
    requires id in worlds[i][t].db.records
    requires d in worlds[i][t].db.records[id].entries && e in worlds[i][t].db.records[id].entries
    requires InRange(d.rating) && InRange(e.rating)
    ensures Abs(d.rating as int - e.rating as int) <= 299
  {
    hide Apply, Enabled;
    EntriesStayInBand(n, worlds, events, t, i, d);
    EntriesStayInBand(n, worlds, events, t, i, e);
    BandSpread(d.rating, e.rating);
  }

  // ---- cancellation over the whole system ----------------------------------------------------

  ghost predicate PoolsAgree(w: Shards) {
    forall t, u :: t in w && u in w && SamePool(t, u) ==> w[t].db.cancelled == w[u].db.cancelled
  }

  lemma {:induction false} PoolsAlwaysAgree(n: nat, worlds: seq<Shards>, events: seq<Event>, i: nat)
    requires IsHistory(n, worlds, events) && i <= |events|
    ensures PoolsAgree(worlds[i])
  {
    hide Apply, Enabled;
    if i > 0 {
      PoolsAlwaysAgree(n, worlds, events, i - 1);
      assert worlds[i] == Happen(n, worlds[i - 1], events[i - 1]);
    }
  }

  /** Over all shards of t's pool the player has at most one loose entry. */
  ghost predicate AtMostOneLooseOverall(w: Shards, t: Shard, p: string) {
    forall u, v, m, m' ::
      (u in w && v in w && SamePool(t, u) && SamePool(t, v) && Loose(w[u], p, m) && Loose(w[v], p, m'))
      ==> u == v && m == m'
  }

  /** When a step of another shard clears a player's flag, it has discarded the one loose
      entry, so that none is left in shard t. */
  lemma ForeignClear(n: nat, w: Shards, ev: Event, t: Shard, p: string)
    requires n >= 1 && Allowed(n, w, ev) && t in w && ShardOf(ev) != t
    requires PoolsAgree(w) && AtMostOneLooseOverall(w, t, p) && Inv(Config(ShardOf(ev), n), w[ShardOf(ev)])
    requires p in w[t].db.cancelled && p !in Happen(n, w, ev)[t].db.cancelled
    ensures NoneLoose(w[t], p)
  {
    hide Loose, Inv, Apply, Enabled;
    var u, a := ShardOf(ev), ActionOf(ev);
    assert SamePool(t, u) && p in w[u].db.cancelled;
    if a.Clear? {
      ClearIsStep(Config(u, n), w[u], a.failed);
      var b := ClearedFor(Config(u, n), w[u], a.failed, p);
    } else {
      CancelledFrame(Config(u, n), w[u], a);
    }
  }

  lemma WithinAlways(n: nat, worlds: seq<Shards>, events: seq<Event>, p: string, t: Shard, j: nat)
    requires IsHistory(n, worlds, events) && j < |events|
    requires forall k :: 0 <= k < |worlds| ==> t in worlds[k]
    requires ShardOf(events[j]) == t ==>
      !ActionOf(events[j]).Start? && (JoinOf(ActionOf(events[j]), p) ==> p in worlds[j][t].db.cancelled)
    requires AtMostOneLooseOverall(worlds[j], t, p)
    ensures Within(worlds[j][t], ActsOf(t, worlds, events)[j], p) && AtMostOneLoose(worlds[j][t], p)
  {
    hide Apply, Enabled, Inv, Loose;
    if ShardOf(events[j]) != t && p in worlds[j][t].db.cancelled && p !in worlds[j + 1][t].db.cancelled {
      var u := ShardOf(events[j]);
      PoolsAlwaysAgree(n, worlds, events, j);
      SameShards(n, worlds, events, j);
      ShardReachable(n, worlds, events, u, j);
      InvReachable(Config(u, n), worlds[j][u]);
      ForeignClear(n, worlds[j], events[j], t, p);
    }
  }

  /** Cancellation safety of the whole system: once the cancelled set of a region and mode
      holds p, and as long as the worker of shard t lives, t forms no match with p, provided
      that p never has two loose entries at a time over all bands, and does not join t again
      once the flag has been cleared. */
  lemma CancelledNeverMatched(
    n: nat, worlds: seq<Shards>, events: seq<Event>, p: string, first: nat, t: Shard, id: MatchID)
    requires IsHistory(n, worlds, events) && first <= |events|
    requires forall j :: 0 <= j < |worlds| ==> t in worlds[j]
    requires p in worlds[first][t].db.cancelled
    requires forall j :: first <= j < |events| && ShardOf(events[j]) == t ==>
      !ActionOf(events[j]).Start? && (JoinOf(ActionOf(events[j]), p) ==> p in worlds[j][t].db.cancelled)
    requires forall j :: first <= j < |events| ==> AtMostOneLooseOverall(worlds[j], t, p)
    requires id in worlds[|events|][t].db.records && id !in worlds[first][t].db.records
    ensures p !in worlds[|events|][t].db.records[id].playerIDs
  {
    hide Apply, Enabled, Inv, IsRun, Within, AtMostOneLoose, AtMostOneLooseOverall, Happen, Allowed;
    Projection(n, worlds, events, t);
    var cfg, trace, acts := Config(t, n), TraceOf(t, worlds), ActsOf(t, worlds, events);
    forall j | first <= j < |events|
      ensures Within(trace[j], acts[j], p) && AtMostOneLoose(trace[j], p)
    {
      WithinAlways(n, worlds, events, p, t, j);
    }
    var trace', acts' := PartFrom(cfg, trace, acts, first);
    CancelledNeverCommitted(cfg, trace', acts', p, id);
  }

  /** The part of a run that follows one of its states. */
  lemma PartFrom(cfg: Config, trace: seq<Sys>, acts: seq<Action>, first: nat) returns (trace': seq<Sys>, acts': seq<Action>)
    requires IsRun(cfg, trace, acts) && trace[0] == INITIAL && first <= |acts|
    ensures IsRun(cfg, trace', acts') && |acts'| == |acts| - first && Inv(cfg, trace'[0])
    ensures forall j :: 0 <= j <= |acts'| ==> trace'[j] == trace[first + j]
    ensures forall j :: 0 <= j < |acts'| ==> acts'[j] == acts[first + j]
  {
    hide Apply, Enabled, Inv;
    trace', acts' := trace[first..|acts| + 1], acts[first..|acts|];
    IsRunPart(cfg, trace, acts, first, |acts|);
    InvInitially(cfg);
    InvRun(cfg, trace, acts, first);
  }

  /** No step of its pool but a join of p and a start makes an entry of p loose in shard u. */
  lemma PoolLooseShrink(n: nat, worlds: seq<Shards>, events: seq<Event>, p: string, first: nat, j: nat, u: Shard, m: Member)
    requires IsHistory(n, worlds, events) && first <= j <= |events| && u in worlds[0] && u in worlds[first] && u in worlds[j]
    requires forall k :: first <= k < |events| && ShardOf(events[k]) == u ==>
      !ActionOf(events[k]).Start? && !JoinOf(ActionOf(events[k]), p)
    requires Loose(worlds[j][u], p, m)
    ensures Loose(worlds[first][u], p, m)
  {
    hide Apply, Enabled, Inv, IsRun, Loose, Happen, Allowed;
    Projection(n, worlds, events, u);
    var trace, acts := PartFrom(Config(u, n), TraceOf(u, worlds), ActsOf(u, worlds, events), first);
    LooseShrink(Config(u, n), trace, acts, p, j - first);
  }

  /** So a caller who checks when Cancel(p) runs that p has at most one loose entry over all
      bands of the region and mode, and does not let p join any of them again, is safe for
      as long as their workers live. */
  lemma NeverMatchedAfterCancel(
    n: nat, worlds: seq<Shards>, events: seq<Event>, p: string, first: nat, t: Shard, id: MatchID)
    requires IsHistory(n, worlds, events) && first <= |events|
    requires forall j :: 0 <= j < |worlds| ==> t in worlds[j]
    requires p in worlds[first][t].db.cancelled && AtMostOneLooseOverall(worlds[first], t, p)
    requires forall j :: first <= j < |events| && SamePool(t, ShardOf(events[j])) ==>
      !ActionOf(events[j]).Start? && !JoinOf(ActionOf(events[j]), p)
    requires id in worlds[|events|][t].db.records && id !in worlds[first][t].db.records
    ensures p !in worlds[|events|][t].db.records[id].playerIDs
  {
    hide Apply, Enabled, Inv, Loose, Happen, Allowed;
    forall j | first <= j < |events|
      ensures AtMostOneLooseOverall(worlds[j], t, p)
    {
      SameShards(n, worlds, events, j);
      SameShards(n, worlds, events, first);
      forall u, m | u in worlds[j] && SamePool(t, u) && Loose(worlds[j][u], p, m)
        ensures Loose(worlds[first][u], p, m)
      {
        PoolLooseShrink(n, worlds, events, p, first, j, u, m);
      }
    }
    CancelledNeverMatched(n, worlds, events, p, first, t, id);
  }
}

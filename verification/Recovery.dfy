/** Work that was not committed is invisible after a crash and a restart. */
module Recovery {
  import opened Model
  import opened Scripts
  import opened Protocol
  import opened Conservation

  /** Everyone who waits, with scores: in the queue or taken out of it for processing. */
  function Waiters(s: Sys): map<Member, int> {
    s.db.queue + s.db.processing
  }

  /** A step that makes or dissolves a match. */
  ghost predicate Effective(cfg: Config, s: Sys, a: Action)
    requires cfg.n >= 1 && Enabled(cfg, s, a)
  {
    || (a.TryCommit? && Apply(cfg, s, a).db != s.db)
    || (a.DissolveStep? && IsForming(s.db, s.ops[a.k].id))
  }

  /** Other steps change no score and no place, except that newcomers wait. */
  ghost predicate OnlyNewcomers(s: Sys, t: Sys) {
    && (forall m :: m in s.hist.scores ==> m in t.hist.scores && t.hist.scores[m] == s.hist.scores[m])
    && (forall m :: m in s.hist.place ==> m in t.hist.place && t.hist.place[m] == s.hist.place[m])
    && (forall m :: m in t.hist.place && m !in s.hist.place ==> t.hist.place[m] == Waiting)
  }

  lemma IneffectiveStep(cfg: Config, s: Sys, a: Action)
    requires Inv(cfg, s) && Enabled(cfg, s, a) && !Effective(cfg, s, a)
    ensures OnlyNewcomers(s, Apply(cfg, s, a))
  {
    if a.TryCommit? {
      IneffectiveCommit(cfg, s, a.now, a.fate);
    } else if ByWorker(a) {
      WorkerFrame(cfg, s, a);
    } else if Opens(a) {
      OpenFrame(cfg, s, a);
    } else if Quiet(a) {
      ServeFrame(cfg, s, a);
    }
  }

  lemma IneffectiveCommit(cfg: Config, s: Sys, now: int, fate: Fate)
    requires cfg.n >= 1 && Enabled(cfg, s, TryCommit(now, fate)) && DoTryCommit(cfg, s, now, fate).db == s.db
    ensures DoTryCommit(cfg, s, now, fate).hist == s.hist
  {
    CommitShows(s.db, MembersOf(s.worker.pc.group), NewMatch(cfg, s.worker.pc.group, now, s.worker.seqNo + 1));
  }

  lemma CommitShows(db: Db, members: seq<Member>, rec: Match)
    ensures CommitAllowed(db, rec.playerIDs) <==> Commit(db, members, rec) != db
  {
    if CommitAllowed(db, rec.playerIDs) {
      assert |Commit(db, members, rec).stream| == |db.stream| + 1;
    }
  }

  lemma {:induction false} IneffectiveRun(cfg: Config, trace: seq<Sys>, acts: seq<Action>, i: nat)
    requires IsRun(cfg, trace, acts) && Inv(cfg, trace[0]) && i <= |acts|
    requires forall j :: 0 <= j < |acts| ==> !Effective(cfg, trace[j], acts[j])
    ensures OnlyNewcomers(trace[0], trace[i]) && Inv(cfg, trace[i])
  {
    hide Apply, Enabled, Inv, Effective;
    if i > 0 {
      IneffectiveRun(cfg, trace, acts, i - 1);
      IneffectiveStep(cfg, trace[i - 1], acts[i - 1]);
      InvStep(cfg, trace[i - 1], acts[i - 1]);
    }
  }

  /** The places say who waits, the history says with which score. */
  lemma WaitersArePlaces(cfg: Config, s: Sys)
    requires Inv(cfg, s)
    ensures forall m :: m in Waiters(s) <==> m in s.hist.place && s.hist.place[m] == Waiting
    ensures forall m :: m in Waiters(s) ==> m in s.hist.scores && Waiters(s)[m] == s.hist.scores[m]
  {
  }

  /** Any run of joins, pops, discards, rejected commits, full or partial pushing back,
      lost replies, accepts, declines and restarts: without a commit or a dissolve that
      takes effect, a crash and a restart leave processing empty and in the queue exactly
      those who waited before and those who joined since, all with their scores. */
  lemma RestartForgetsUncommittedWork(cfg: Config, trace: seq<Sys>, acts: seq<Action>, millis: int)
    requires IsRun(cfg, trace, acts) && Inv(cfg, trace[0])
    requires forall j :: 0 <= j < |acts| ==> !Effective(cfg, trace[j], acts[j])
    requires var crashed := trace[|acts|].(worker := Down); Enabled(cfg, crashed, Start(millis))
    ensures var first, last := trace[0], trace[|acts|];
      var restarted := Apply(cfg, last.(worker := Down), Start(millis));
      && restarted.db.processing == map[]
      && restarted.db.queue == Waiters(first) + (map m | m in last.hist.scores && m !in first.hist.scores :: last.hist.scores[m])
  {
    var first, last := trace[0], trace[|acts|];
    IneffectiveRun(cfg, trace, acts, |acts|);
    WaitersArePlaces(cfg, first);
    WaitersArePlaces(cfg, last);
    WaitersFollow(first, last);
  }

  lemma WaitersFollow(first: Sys, last: Sys)
    requires OnlyNewcomers(first, last)
    requires first.hist.place.Keys == first.hist.scores.Keys && last.hist.place.Keys == last.hist.scores.Keys
    requires forall s :: s in [first, last] ==>
      && (forall m :: m in Waiters(s) <==> m in s.hist.place && s.hist.place[m] == Waiting)
      && (forall m :: m in Waiters(s) ==> m in s.hist.scores && Waiters(s)[m] == s.hist.scores[m])
    ensures Waiters(last) == Waiters(first) + (map m | m in last.hist.scores && m !in first.hist.scores :: last.hist.scores[m])
  {
    assert first in [first, last] && last in [first, last];
    var expected := Waiters(first) + (map m | m in last.hist.scores && m !in first.hist.scores :: last.hist.scores[m]);
    forall m
      ensures m in Waiters(last) <==> m in expected
      ensures m in Waiters(last) ==> Waiters(last)[m] == expected[m]
    {
      if m in first.hist.scores {
        assert first.hist.place[m] == last.hist.place[m];
      }
    }
  }
}

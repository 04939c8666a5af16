/** What popOnce does not do: when nothing well-formed is popped it leaves before the
    grouping loop, so a group that became possible through waiting is not formed. */
module Starvation {
  import opened Model
  import opened Grouping
  import opened Protocol
  import opened Conservation
  import opened World
  import opened Runs
  import opened Scenario

  /** Any step of anyone but a join, a dissolve that takes place, and the end or the start
      of a worker. */
  predicate NothingArrives(a: Action) {
    !a.Join? && !a.DissolveStep? && !a.Start? && !a.Crash?
  }

  /** The worker is between two calls of popOnce and nothing it could pop would decode. */
  ghost predicate Idles(s: Sys) {
    s.worker.Up? && s.worker.pc.Idle? && forall m :: m in s.db.queue ==> m.Malformed?
  }

  lemma {:induction false} NothingDecodes(batch: seq<Member>, scores: map<Member, int>, i: nat)
    requires i <= |batch| && forall m :: m in batch ==> m in scores
    requires forall m :: m in batch ==> m.Malformed?
    ensures Parse(batch, scores, i) == []
  {
    if i > 0 {
      NothingDecodes(batch, scores, i - 1);
      assert batch[i - 1] in batch;
    }
  }

  lemma IdleStep(cfg: Config, s: Sys, a: Action)
    requires cfg.n >= 1 && Idles(s) && Enabled(cfg, s, a) && NothingArrives(a)
    ensures var t := Apply(cfg, s, a);
      Idles(t) && t.worker.buffer == s.worker.buffer && t.db.records.Keys == s.db.records.Keys
  {
    if a.PopBatch? {
      NothingDecodes(a.batch, s.db.queue, |a.batch|);
    } else if Opens(a) {
      OpenFrame(cfg, s, a);
    } else if Quiet(a) {
      ServeFrame(cfg, s, a);
    } else if a.ConfirmStep? {
      ConfirmIdle(s, a.k);
    }
  }

  lemma ConfirmIdle(s: Sys, k: nat)
    requires k in s.ops && s.ops[k].ConfirmRead?
    ensures var t := DoConfirm(s, k);
      t.worker == s.worker && t.db.queue == s.db.queue && t.db.records.Keys == s.db.records.Keys
  {
  }

  /** However long the worker goes on, whoever could be grouped by now and whatever anyone
      else does: as long as nobody joins, no dissolve puts entries back and the worker lives,
      the buffer stays as it is and no match is formed. */
  lemma {:induction false} WaitingAloneFormsNothing(cfg: Config, trace: seq<Sys>, acts: seq<Action>, i: nat)
    requires IsRun(cfg, trace, acts) && i <= |acts| && Idles(trace[0])
    requires forall j :: 0 <= j < |acts| ==> NothingArrives(acts[j])
    ensures Idles(trace[i]) && trace[i].worker.buffer == trace[0].worker.buffer
    ensures trace[i].db.records.Keys == trace[0].db.records.Keys
  {
    hide Apply, Enabled, Idles;
    if i > 0 {
      WaitingAloneFormsNothing(cfg, trace, acts, i - 1);
      IdleStep(cfg, trace[i - 1], acts[i - 1]);
    }
  }

  // ---- a history that gets there -------------------------------------------------------------

  const LOW := QueueEntry("low", 1320, 0)
  const HIGH := QueueEntry("high", 1580, SECOND)
  const BOTH := [Waiter(LOW), Waiter(HIGH)]

  /** Too far apart at first; from the 42nd second of the first one's wait on they are not. */
  lemma PairBecomesPossible(now: int)
    ensures Select(BOTH, 2, 2 * SECOND).NotFound?
    ensures 42 * SECOND <= now <= LONGEST_EXACT_WAIT as int * SECOND ==> Select(BOTH, 2, now).Found?
  {
    var two: nat := 2;
    PairWindow(2 * SECOND);
    SelectExact(BOTH, two, 2 * SECOND);
    if 42 * SECOND <= now <= LONGEST_EXACT_WAIT as int * SECOND {
      var wait := WaitSecs(now, 0);
      assert 42 <= wait <= LONGEST_EXACT_WAIT;
      WindowExact(wait);
      PairWindow(now);
      SelectExact(BOTH, two, now);
    }
  }

  lemma PairWindow(now: int)
    ensures Count(NearHead(BOTH, now), BOTH, 2) == if Window(WaitSecs(now, 0)) >= 260 then 1 else 0
  {
    assert Diff(1580, 1320) == 260;
    assert Count(NearHead(BOTH, now), BOTH, 1) == 0;
  }

  /** A history of the system in which both are popped and buffered before that, and the
      worker has come to rest. */
  lemma PairIsLeftWaiting() returns (worlds: seq<Shards>, events: seq<Event>)
    ensures IsHistory(2, worlds, events) && SHARD in worlds[|events|]
    ensures Idles(worlds[|events|][SHARD]) && worlds[|events|][SHARD].worker.buffer == BOTH
  {
    hide Leads, IsHistory, Select, Flagged;
    var own := OwnSteps(SHARD);
    var s := BothEnterAndAreRead(LOW, HIGH);
    TwoFlagged(LOW, HIGH, {});
    LeadsOn(DUEL, INITIAL, s, own, Check(false));
    s := DoCheck(s, false);
    assert [] + BOTH == BOTH;
    assert s.worker == Up(0, 0, BOTH, Choosing);
    PairBecomesPossible(0);
    LeadsOn(DUEL, INITIAL, s, own, Choose(2 * SECOND));
    s := DoChoose(DUEL, s, 2 * SECOND);
    LeadsNowhere(DUEL, s, own);
    var first;
    worlds, events, first := HistoryOf(2, SHARD, s, s, own);
  }
}

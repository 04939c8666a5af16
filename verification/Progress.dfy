/** The worker makes progress: when everything works, everyone who waited is read, and is
    then in the buffer or in a match. */
module Progress {
  import opened Model
  import opened Order
  import opened Scripts
  import opened Grouping
  import opened Reading
  import opened PopLoop

  /** Nobody else acts, no pop or commit goes wrong. */
  ghost predicate Undisturbed(f: Faults) {
    f.alone && f.pop == Replied && forall i :: f.commit(i) == Replied
  }

  /** Read into the buffer, or part of a stored match. */
  ghost predicate Served(m: Member, buffer: seq<Buffered>, db: Db) {
    m.Encoded? && ((exists b :: b in buffer && b.member == m) || exists id :: id in db.records && m.entry in db.records[id].entries)
  }

  /** Still queued, or without a meaning, or served. */
  ghost predicate Cared(m: Member, buffer: seq<Buffered>, db: Db) {
    m in db.queue || m.Malformed? || Served(m, buffer, db)
  }

  /** The buffer holds members under their own encoding. */
  ghost predicate Plain(buffer: seq<Buffered>) {
    forall b :: b in buffer ==> b.member == Encoded(b.entry)
  }

  lemma ReadIsPlain(moved: seq<Member>, scores: map<Member, int>, cands: seq<Buffered>)
    requires ReadOnce(moved, scores, cands)
    ensures Plain(cands)
  {
    var picks: seq<int> :| ReadsAll(moved, scores, cands, picks);
  }

  lemma EncodedIsRead(moved: seq<Member>, scores: map<Member, int>, cands: seq<Buffered>, m: Member)
    requires ReadOnce(moved, scores, cands) && m in moved && m.Encoded?
    ensures exists b :: b in cands && b.member == m
  {
    var picks: seq<int> :| ReadsAll(moved, scores, cands, picks);
    var j :| 0 <= j < |moved| && moved[j] == m;
    assert j in picks;
    assert Picks(MembersOf(cands), moved, picks);
    hide ReadsAll;
    var i :| 0 <= i < |picks| && picks[i] == j;
    assert MembersOf(cands)[i] == m;
    assert cands[i] in cands;
  }

  // ---- one turn --------------------------------------------------------------------------

  lemma NobodyDiscarded(t: Turn)
    requires t.cancelled == {} && SiftedInOrder(t.cands, t.cancelled, true, Discarded(t))
    ensures Discarded(t) == []
  {
    SiftedMeans(t.cands, t.cancelled, true, Discarded(t));
    EmptyWithout(Discarded(t));
  }

  lemma EmptyWithout(xs: seq<Buffered>)
    ensures (forall b :: b !in xs) ==> xs == []
  {
    if xs != [] {
      assert xs[0] in xs;
    }
  }

  lemma NobodyRejected(d: Deals)
    requires Judged({}, d)
    ensures d.repushed == [] && d.stuck == []
  {
    assert d.repushed != [] ==> Unflagged({}, d.repushed[0]);
    assert d.stuck != [] ==> Unflagged({}, d.stuck[0]);
  }

  lemma {:induction false} InBag(groups: seq<seq<Buffered>>, b: Buffered) returns (i: nat)
    requires b in Bag(groups)
    ensures i < |groups| && b in groups[i]
  {
    i := |groups| - 1;
    if b !in multiset(groups[i]) {
      i := InBag(groups[..i], b);
    }
  }

  /** Whoever was buffered or read is still buffered or in a match. */
  lemma KeptOrCommitted(n: nat, r: Round, b: Buffered)
    requires n >= 1 && r.turn.cancelled == {} && !r.failed
    requires TurnClosed(n, r.buffer, r.first, r.out, r.db, r.turn, r.failed) && Judged({}, r.turn.deals)
    requires b in r.buffer || b in r.turn.cands
    ensures b in r.out || exists id :: id in r.db.records && b.entry in r.db.records[id].entries
  {
    var t, d := r.turn, r.turn.deals;
    NobodyDiscarded(t);
    NobodyRejected(d);
    if b !in r.out {
      BoughtOrSold(multiset(r.buffer), multiset(t.cands), multiset(r.out), multiset(Discarded(t)), Dealt(d), b);
      var i := InBag(d.committed, b);
      var k :| 0 <= k < |d.committed[i]| && d.committed[i][k] == b;
      assert EntriesOf(d.committed[i])[k] == b.entry;
      assert d.ids[i] in r.db.records;
    }
  }

  lemma BoughtOrSold(
    buffer: multiset<Buffered>, cands: multiset<Buffered>, out: multiset<Buffered>,
    discarded: multiset<Buffered>, dealt: multiset<Buffered>, b: Buffered)
    requires buffer + cands == out + discarded + dealt && (b in buffer || b in cands) && b !in out && b !in discarded
    ensures b in dealt
  {
    assert b in buffer + cands;
  }

  /** What holds after k turns. */
  ghost predicate Caring(start: Db, buffer: seq<Buffered>, db: Db, k: nat) {
    && db.cancelled == {} && Plain(buffer)
    && |db.queue| <= (if |start.queue| <= 24 * k then 0 else |start.queue| - 24 * k)
    && forall m :: m in start.queue ==> Cared(m, buffer, db)
  }

  lemma QueueShrinks(first: Db, db: Db, moved: seq<Member>, size: nat)
    requires PopMin(first.queue, POP_BATCH_SIZE, moved) && |moved| == if |first.queue| < 24 then |first.queue| else 24
    requires db.queue == first.queue - Elements(moved) && |first.queue| <= size
    ensures |db.queue| <= if size <= 24 then 0 else size - 24
  {
    DistinctCount(moved);
    assert Elements(moved) <= first.queue.Keys;
    assert db.queue.Keys == first.queue.Keys - Elements(moved);
  }

  lemma {:induction false} DistinctCount(xs: seq<Member>)
    requires forall i, j :: 0 <= i < j < |xs| ==> xs[i] != xs[j]
    ensures |Elements(xs)| == |xs|
  {
    if xs != [] {
      var front, last := xs[..|xs| - 1], xs[|xs| - 1];
      DistinctCount(front);
      assert Elements(xs) == Elements(front) + {last};
    }
  }

  lemma CaringTurn(n: nat, f: Faults, start: Db, r: Round, k: nat)
    requires n >= 1 && Undisturbed(f) && Caring(start, r.buffer, r.first, k)
    requires TurnGuarantee(n, f, r.buffer, r.first, r.out, r.db, r.turn, r.failed)
    ensures Caring(start, r.out, r.db, k + 1)
  {
    hide Cared, Plain;
    TurnKeepsNobodyCancelled(n, f, r);
    var left := if |start.queue| <= 24 * k then 0 else |start.queue| - 24 * k;
    QueueShrinks(r.first, r.db, r.turn.moved, left);
    TurnIsPlain(n, f, r);
    forall m | m in start.queue
      ensures Cared(m, r.out, r.db)
    {
      TurnCares(n, f, r, m);
    }
  }

  /** The queue loses what was popped, and nobody is cancelled. */
  lemma TurnKeepsNobodyCancelled(n: nat, f: Faults, r: Round)
    requires n >= 1 && Undisturbed(f) && r.first.cancelled == {}
    requires TurnGuarantee(n, f, r.buffer, r.first, r.out, r.db, r.turn, r.failed)
    ensures r.db.cancelled == {} && r.db.queue == r.first.queue - Elements(r.turn.moved) && !r.failed
    ensures PopMin(r.first.queue, POP_BATCH_SIZE, r.turn.moved)
    ensures |r.turn.moved| == if |r.first.queue| < 24 then |r.first.queue| else 24
    ensures r.turn.cands != [] ==> r.turn.cancelled == {} && Judged({}, r.turn.deals)
  {
    hide PopMin, ReadOnce, TurnClosed, Prompt, Judged, Select;
    if r.turn.cands != [] {
      assert r.db.cancelled == {};
      NobodyRejected(r.turn.deals);
    }
  }

  lemma SubsequenceInside(out: seq<Buffered>, xs: seq<Buffered>, ys: seq<Buffered>)
    requires Subsequence(out, xs + ys)
    ensures forall b :: b in out ==> b in xs || b in ys
  {
    var picks: seq<int> :| Picks(out, xs + ys, picks);
    forall b | b in out
      ensures b in xs || b in ys
    {
      var i :| 0 <= i < |out| && out[i] == b;
      assert (xs + ys)[picks[i]] == b;
    }
  }

  lemma TurnIsPlain(n: nat, f: Faults, r: Round)
    requires n >= 1 && Undisturbed(f) && r.first.cancelled == {} && Plain(r.buffer)
    requires TurnGuarantee(n, f, r.buffer, r.first, r.out, r.db, r.turn, r.failed)
    ensures Plain(r.out)
  {
    hide PopMin, ReadOnce, Prompt, Judged, Select, Delivered, GroupsOf, Dealt, Subsequence;
    if r.turn.cands != [] {
      ReadIsPlain(r.turn.moved, r.first.queue, r.turn.cands);
      SubsequenceInside(r.out, r.buffer, r.turn.cands);
    }
  }

  lemma TurnCares(n: nat, f: Faults, r: Round, m: Member)
    requires n >= 1 && Undisturbed(f) && r.first.cancelled == {}
    requires TurnGuarantee(n, f, r.buffer, r.first, r.out, r.db, r.turn, r.failed)
    requires Cared(m, r.buffer, r.first) && Plain(r.buffer)
    ensures Cared(m, r.out, r.db)
  {
    hide PopMin, ReadOnce, Prompt, Judged, Select, TurnClosed, RecordsStay;
    TurnKeepsNobodyCancelled(n, f, r);
    if m.Encoded? && m !in r.db.queue {
      if m in r.first.queue {
        EncodedIsRead(r.turn.moved, r.first.queue, r.turn.cands, m);
        var b :| b in r.turn.cands && b.member == m;
        ReadIsPlain(r.turn.moved, r.first.queue, r.turn.cands);
        KeptOrCommitted(n, r, b);
      } else {
        ServedStays(n, r, m);
      }
    }
  }

  lemma ServedStays(n: nat, r: Round, m: Member)
    requires n >= 1 && Served(m, r.buffer, r.first) && Plain(r.buffer) && !r.failed
    requires r.turn.cands == [] ==> r.out == r.buffer && r.db.records == r.first.records
    requires r.turn.cands != [] ==>
      && r.turn.cancelled == {} && Judged({}, r.turn.deals)
      && TurnClosed(n, r.buffer, r.first, r.out, r.db, r.turn, r.failed)
    ensures Served(m, r.out, r.db)
  {
    if r.turn.cands != [] {
      if id :| id in r.first.records && m.entry in r.first.records[id].entries {
        assert SameMatch(r.db.records[id], r.first.records[id]);
      } else {
        var b :| b in r.buffer && b.member == m;
        KeptOrCommitted(n, r, b);
      }
    }
  }

  // ---- the whole run ---------------------------------------------------------------------

  lemma {:induction false} CaringSession(n: nat, faults: nat -> Faults, start: Db, log: seq<Round>, k: nat)
    requires n >= 1 && IsSession(n, faults, start, log) && start.cancelled == {} && k <= |log|
    requires forall i :: Undisturbed(faults(i))
    ensures Caring(start, BufferAfter(log, k), KeysAfter(start, log, k), k)
  {
    hide IsTurn, Caring, BufferAfter, KeysAfter;
    if k == 0 {
      CaringAtFirst(start, log);
    } else {
      CaringSession(n, faults, start, log, k - 1);
      assert Undisturbed(faults(k - 1));
      assert IsTurn(n, faults(k - 1), BufferAfter(log, k - 1), KeysAfter(start, log, k - 1), log[k - 1]);
      CaringStep(n, faults(k - 1), start, log, k);
    }
  }

  lemma CaringAtFirst(start: Db, log: seq<Round>)
    requires start.cancelled == {}
    ensures Caring(start, BufferAfter(log, 0), KeysAfter(start, log, 0), 0)
  {
  }

  lemma CaringStep(n: nat, f: Faults, start: Db, log: seq<Round>, k: nat)
    requires n >= 1 && Undisturbed(f) && 0 < k <= |log|
    requires Caring(start, BufferAfter(log, k - 1), KeysAfter(start, log, k - 1), k - 1)
    requires IsTurn(n, f, BufferAfter(log, k - 1), KeysAfter(start, log, k - 1), log[k - 1])
    ensures Caring(start, BufferAfter(log, k), KeysAfter(start, log, k), k)
  {
    hide TurnGuarantee, Caring;
    CaringTurn(n, f, start, log[k - 1], k - 1);
  }

  /** Progress: nobody else acts, nobody is cancelled, every pop and commit is answered, and
      there are enough turns for those who waited in the queue or were left in processing.
      Then the queue is empty, and each of them is without a meaning, in the buffer, or in a
      stored match. */
  lemma EverybodyIsServed(n: nat, faults: nat -> Faults, was: Db, log: seq<Round>, buffer: seq<Buffered>, db: Db, failed: bool)
    requires n >= 1 && was.cancelled == {} && forall i :: Undisturbed(faults(i))
    requires IsSession(n, faults, Drain(was), log) && SessionEnds(Drain(was), log, buffer, db, failed)
    requires |was.queue.Keys + was.processing.Keys| <= 24 * |log|
    ensures !failed && db.queue == map[]
    ensures forall m :: m in was.queue || m in was.processing ==> m.Malformed? || Served(m, buffer, db)
  {
    hide TurnGuarantee, Cared, Served;
    var start := Drain(was);
    DrainedQueue(was);
    CaringSession(n, faults, start, log, |log|);
    if log != [] {
      var r := log[|log| - 1];
      assert Undisturbed(faults(|log| - 1));
      assert IsTurn(n, faults(|log| - 1), BufferAfter(log, |log| - 1), KeysAfter(start, log, |log| - 1), r);
      NeverFails(n, faults(|log| - 1), r);
    }
    assert db.queue == map[] by { NoneLeft(db.queue); }
    forall m | m in was.queue || m in was.processing
      ensures m.Malformed? || Served(m, buffer, db)
    {
      CaredMeans(m, buffer, db);
    }
  }

  lemma NeverFails(n: nat, f: Faults, r: Round)
    requires n >= 1 && Undisturbed(f)
    requires TurnGuarantee(n, f, r.buffer, r.first, r.out, r.db, r.turn, r.failed)
    ensures !r.failed
  {
  }

  lemma DrainedQueue(was: Db)
    ensures Drain(was).cancelled == was.cancelled && Drain(was).queue.Keys == was.queue.Keys + was.processing.Keys
  {
  }

  lemma NoneLeft(queue: map<Member, int>)
    ensures |queue| == 0 ==> queue == map[]
  {
  }

  lemma CaredMeans(m: Member, buffer: seq<Buffered>, db: Db)
    requires Cared(m, buffer, db) && db.queue == map[]
    ensures m.Malformed? || Served(m, buffer, db)
  {
  }
}

/** What the worker reads of a popped batch, and how it sorts the candidates, by positions. */
module Reading {
  import opened Model
  import opened Order
  import opened Protocol

  /** The candidates are the decodable members of the batch with their scores, every one of
      them, in the order of the batch. */
  ghost predicate ReadsAll(batch: seq<Member>, scores: map<Member, int>, cands: seq<Buffered>, picks: seq<int>) {
    && Picks(MembersOf(cands), batch, picks)
    && (forall i :: 0 <= i < |cands| ==>
          && cands[i].member in scores && cands[i].member.Encoded?
          && cands[i] == Buffered(cands[i].member.entry, cands[i].member, scores[cands[i].member]))
    && (forall j :: 0 <= j < |batch| && batch[j].Encoded? ==> j in picks)
  }

  lemma {:induction false} ParseReads(batch: seq<Member>, scores: map<Member, int>, i: nat) returns (picks: seq<int>)
    requires i <= |batch| && forall m :: m in batch ==> m in scores
    ensures ReadsAll(batch[..i], scores, Parse(batch, scores, i), picks)
  {
    if i == 0 {
      picks := [];
    } else {
      picks := ParseReads(batch, scores, i - 1);
      var before := Parse(batch, scores, i - 1);
      var m := batch[i - 1];
      assert batch[..i] == batch[..i - 1] + [m];
      PicksMore(MembersOf(before), batch[..i - 1], picks, m);
      if m.Encoded? {
        var b := Buffered(m.entry, m, scores[m]);
        assert MembersOf(before + [b]) == MembersOf(before) + [m];
        picks := picks + [i - 1];
      }
    }
  }

  /** Read by read: nothing decodable is passed over, and nothing is read twice. */
  ghost predicate ReadOnce(batch: seq<Member>, scores: map<Member, int>, cands: seq<Buffered>) {
    exists picks: seq<int> :: ReadsAll(batch, scores, cands, picks)
  }

  lemma ParseIsReadOnce(batch: seq<Member>, scores: map<Member, int>)
    requires forall m :: m in batch ==> m in scores
    ensures ReadOnce(batch, scores, Parse(batch, scores, |batch|))
  {
    var picks := ParseReads(batch, scores, |batch|);
    assert batch[..|batch|] == batch;
  }

  lemma ReadTwice(batch: seq<Member>, scores: map<Member, int>, cands: seq<Buffered>, picks: seq<int>, a: nat, b: nat)
    requires ReadsAll(batch, scores, cands, picks) && a < b < |cands|
    requires forall i, j :: 0 <= i < j < |batch| ==> batch[i] != batch[j]
    ensures cands[a] != cands[b]
  {
    var x, y := picks[a], picks[b];
    assert MembersOf(cands)[a] == batch[x] && MembersOf(cands)[b] == batch[y];
  }

  /** So a decodable member of a batch without repetitions is a candidate, and at one
      position only. */
  lemma ReadOnceMeans(batch: seq<Member>, scores: map<Member, int>, cands: seq<Buffered>, m: Member)
    requires ReadOnce(batch, scores, cands) && m in batch && m.Encoded? && m in scores
    requires forall i, j :: 0 <= i < j < |batch| ==> batch[i] != batch[j]
    ensures exists i :: 0 <= i < |cands| && cands[i] == Buffered(m.entry, m, scores[m])
    ensures forall i, j :: 0 <= i < j < |cands| ==> cands[i] != cands[j]
  {
    var picks: seq<int> :| ReadsAll(batch, scores, cands, picks);
    var j :| 0 <= j < |batch| && batch[j] == m;
    var i :| 0 <= i < |picks| && picks[i] == j;
    assert MembersOf(cands)[i] == m;
    assert cands[i] == Buffered(m.entry, m, scores[m]);
    hide ReadsAll;
    forall a, b | 0 <= a < b < |cands|
      ensures cands[a] != cands[b]
    {
      ReadTwice(batch, scores, cands, picks, a, b);
    }

  }

  /** The flagged or the unflagged candidates: exactly those, in order. */
  ghost predicate Sifted(cands: seq<Buffered>, cancelled: set<string>, flag: bool, part: seq<Buffered>, picks: seq<int>) {
    && Picks(part, cands, picks)
    && (forall j :: 0 <= j < |cands| ==> (j in picks <==> (cands[j].entry.playerID in cancelled) == flag))
  }

  lemma {:induction false} FlaggedSifts(cands: seq<Buffered>, cancelled: set<string>, flag: bool, i: nat) returns (picks: seq<int>)
    requires i <= |cands|
    ensures Sifted(cands[..i], cancelled, flag, Flagged(cands, cancelled, flag, i), picks)
  {
    if i == 0 {
      picks := [];
    } else {
      picks := FlaggedSifts(cands, cancelled, flag, i - 1);
      var before, b := Flagged(cands, cancelled, flag, i - 1), cands[i - 1];
      assert cands[..i] == cands[..i - 1] + [b];
      PicksMore(before, cands[..i - 1], picks, b);
      assert forall j :: j in picks ==> j < i - 1;
      if (b.entry.playerID in cancelled) == flag {
        picks := picks + [i - 1];
      }
    }
  }

  ghost predicate SiftedInOrder(cands: seq<Buffered>, cancelled: set<string>, flag: bool, part: seq<Buffered>) {
    exists picks: seq<int> :: Sifted(cands, cancelled, flag, part, picks)
  }

  lemma FlaggedIsSifted(cands: seq<Buffered>, cancelled: set<string>, flag: bool)
    ensures SiftedInOrder(cands, cancelled, flag, Flagged(cands, cancelled, flag, |cands|))
  {
    var picks := FlaggedSifts(cands, cancelled, flag, |cands|);
    assert cands[..|cands|] == cands;
  }

  lemma SiftedMeans(cands: seq<Buffered>, cancelled: set<string>, flag: bool, part: seq<Buffered>)
    requires SiftedInOrder(cands, cancelled, flag, part)
    ensures Subsequence(part, cands)
    ensures forall b :: b in part <==> b in cands && (b.entry.playerID in cancelled) == flag
  {
    var picks: seq<int> :| Sifted(cands, cancelled, flag, part, picks);
    assert Picks(part, cands, picks);
    hide Sifted;
    forall b
      ensures b in part <==> b in cands && (b.entry.playerID in cancelled) == flag
    {
      SiftedOne(cands, cancelled, flag, part, picks, b);
    }
  }

  lemma SiftedOne(cands: seq<Buffered>, cancelled: set<string>, flag: bool, part: seq<Buffered>, picks: seq<int>, b: Buffered)
    requires Sifted(cands, cancelled, flag, part, picks)
    ensures b in part <==> b in cands && (b.entry.playerID in cancelled) == flag
  {
    if b in part {
      var i :| 0 <= i < |part| && part[i] == b;
      assert picks[i] in picks;
    }
    if b in cands && (b.entry.playerID in cancelled) == flag {
      var j :| 0 <= j < |cands| && cands[j] == b;
      var i :| 0 <= i < |picks| && picks[i] == j;
      assert part[i] == b;
    }
  }
}

/** The accept script does not check who accepts: a match that one of its players never
    accepted gets confirmed, because somebody else accepted it. */
module Outsider {
  import opened Model
  import opened Scripts
  import opened Protocol
  import opened Matches
  import opened World
  import opened Runs
  import opened Scenario

  /** A history of the system that ends with a confirmed match of Ann and Carl, accepted
      by Ann and by Eve. */
  lemma OutsiderConfirms() returns (worlds: seq<Shards>, events: seq<Event>, id: MatchID)
    ensures IsHistory(2, worlds, events) && SHARD in worlds[|events|]
    ensures var t := worlds[|events|][SHARD];
      && id in t.db.records && id in t.db.status && t.db.status[id] == Confirmed
      && t.db.records[id].playerIDs == ["ann", "carl"]
      && Acceptors(t, id) == {"ann", "eve"}
  {
    hide Leads, IsHistory, Acceptors;
    var own := OwnSteps(SHARD);
    var s := PairForms();
    id := PairMatch(1).id;
    s := OneAccepts(s, id);
    s := LastAccepts(s, id);
    AcceptorsIn(s, id);
    LeadsNowhere(DUEL, s, own);
    var first;
    worlds, events, first := HistoryOf(2, SHARD, s, s, own);
  }

  /** The match is forming, nobody accepted it yet, and no request is in flight. */
  ghost predicate Waits(s: Sys, id: MatchID, accepted: set<string>) {
    && s.ops == map[] && id in s.db.records && s.db.records[id].playerIDs == ["ann", "carl"]
    && IsForming(s.db, id) && Lookup(s.db.accepted, id) == accepted && Lookup(s.db.declined, id) == {}
  }

  lemma AcceptorsIn(s: Sys, id: MatchID)
    ensures Acceptors(s, id) == Lookup(s.db.accepted, id)
  {
  }

  lemma PairForms() returns (s: Sys)
    ensures Leads(DUEL, INITIAL, s, OwnSteps(SHARD)) && Waits(s, PairMatch(1).id, {})
  {
    hide Leads;
    s := BothEnterAndAreRead(ANN, CARL);
    s := BothAreKept(INITIAL, s, OwnSteps(SHARD));
    s := PairIsCommitted(INITIAL, s, OwnSteps(SHARD));
  }

  /** One more accept call, up to the reply of its script. */
  lemma Accepts(s: Sys, id: MatchID, accepted: set<string>, p: string) returns (t: Sys)
    requires Leads(DUEL, INITIAL, s, OwnSteps(SHARD)) && Waits(s, id, accepted) && p !in accepted
    ensures Leads(DUEL, INITIAL, t, OwnSteps(SHARD)) && Waits(t.(ops := map[]), id, accepted + {p})
    ensures t.ops == if |accepted + {p}| == 2 then map[0 := Confirming(id)] else map[]
  {
    hide Leads, Accept, AcceptReply;
    var own := OwnSteps(SHARD);
    LeadsOn(DUEL, INITIAL, s, own, AcceptCall(0, id, p));
    t := s.(ops := map[0 := Accepting(id, p, 2)]);
    LeadsOn(DUEL, INITIAL, t, own, AcceptStep(0));
    NewAcceptor(t.db, id, p);
    t := DoAccept(t, 0);
  }

  lemma NewAcceptor(db: Db, id: MatchID, p: string)
    requires IsForming(db, id) && Lookup(db.declined, id) == {} && p !in Lookup(db.accepted, id)
    ensures var accepted := Lookup(db.accepted, id) + {p};
      AcceptReply(db, id, p) == |accepted| && Accept(db, id, p) == db.(accepted := db.accepted[id := accepted])
  {
  }

  /** Ann's accept is the first of two. */
  lemma OneAccepts(s: Sys, id: MatchID) returns (t: Sys)
    requires Leads(DUEL, INITIAL, s, OwnSteps(SHARD)) && Waits(s, id, {})
    ensures Leads(DUEL, INITIAL, t, OwnSteps(SHARD)) && Waits(t, id, {"ann"})
  {
    hide Leads;
    t := Accepts(s, id, {}, "ann");
    assert {} + {"ann"} == {"ann"} && |{"ann"}| == 1;
  }

  /** Eve's is the second, and the handler confirms. */
  lemma LastAccepts(s: Sys, id: MatchID) returns (t: Sys)
    requires Leads(DUEL, INITIAL, s, OwnSteps(SHARD)) && Waits(s, id, {"ann"})
    ensures Leads(DUEL, INITIAL, t, OwnSteps(SHARD)) && Lookup(t.db.accepted, id) == {"ann", "eve"}
    ensures id in t.db.records && t.db.records[id].playerIDs == ["ann", "carl"] && id in t.db.status && t.db.status[id] == Confirmed
  {
    hide Leads;
    t := Accepts(s, id, {"ann"}, "eve");
    assert {"ann"} + {"eve"} == {"ann", "eve"} && |{"ann", "eve"}| == 2;
    t := Confirms(t, id);
  }

  lemma Confirms(s: Sys, id: MatchID) returns (t: Sys)
    requires Leads(DUEL, INITIAL, s, OwnSteps(SHARD))
    requires s.ops == map[0 := Confirming(id)] && id in s.db.records && IsForming(s.db, id)
    ensures Leads(DUEL, INITIAL, t, OwnSteps(SHARD)) && t.db.accepted == s.db.accepted
    ensures id in t.db.records && t.db.records[id].playerIDs == s.db.records[id].playerIDs
    ensures id in t.db.status && t.db.status[id] == Confirmed
  {
    hide Leads;
    var own := OwnSteps(SHARD);
    LeadsOn(DUEL, INITIAL, s, own, ConfirmReadStep(0));
    t := s.(ops := s.ops[0 := ConfirmRead(id, s.db.records[id])]);
    LeadsOn(DUEL, INITIAL, t, own, ConfirmStep(0));
    t := DoConfirm(t, 0);
  }
}

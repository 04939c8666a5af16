/** The flat argument lists that the Go code packs and the scripts read back by 1-based
    index (commitMatch, Confirm and Dissolve). */
module Argv {
  import opened Model

  datatype Arg = Num(n: int) | Text(s: string) | Raw(m: Member) | Record(rec: Match) | Key(id: MatchID)

  /** ARGV[i] in a script. */
  function At(argv: seq<Arg>, i: int): Arg
    requires 1 <= i <= |argv|
  {
    argv[i - 1]
  }

  // ---- commit ----------------------------------------------------------------------

  datatype CommitCall = CommitCall(
    playerIDs: seq<string>, members: seq<Member>, rec: Match, ttl: int, score: int, id: MatchID, maxLen: int)

  predicate Balanced(call: CommitCall) {
    |call.playerIDs| == |call.members|
  }

  /** The order in which commitMatch appends. */
  function PackCommit(call: CommitCall): seq<Arg>
    requires Balanced(call)
  {
    [Num(|call.playerIDs|)] + Texts(call.playerIDs) + Raws(call.members)
    + [Record(call.rec), Num(call.ttl), Num(call.score), Key(call.id), Num(call.maxLen)]
  }

  function Texts(xs: seq<string>): (args: seq<Arg>)
    ensures |args| == |xs|
  {
    seq(|xs|, i requires 0 <= i < |xs| => Text(xs[i]))
  }

  function Raws(xs: seq<Member>): (args: seq<Arg>)
    ensures |args| == |xs|
  {
    seq(|xs|, i requires 0 <= i < |xs| => Raw(xs[i]))
  }

  /** For every group size the script's indices hit exactly what was packed there. */
  lemma CommitIndices(call: CommitCall)
    requires Balanced(call)
    ensures var n, argv := |call.playerIDs|, PackCommit(call);
      && |argv| == 2 * n + 6
      && At(argv, 1) == Num(n)
      && (forall i :: 2 <= i <= n + 1 ==> At(argv, i) == Text(call.playerIDs[i - 2]))
      && (forall i :: n + 2 <= i <= 2 * n + 1 ==> At(argv, i) == Raw(call.members[i - n - 2]))
      && At(argv, 2 * n + 2) == Record(call.rec) && At(argv, 2 * n + 3) == Num(call.ttl)
      && At(argv, 2 * n + 4) == Num(call.score) && At(argv, 2 * n + 5) == Key(call.id)
      && At(argv, 2 * n + 6) == Num(call.maxLen)
  {
    var head := [Num(|call.playerIDs|)] + Texts(call.playerIDs) + Raws(call.members);
    var tail := [Record(call.rec), Num(call.ttl), Num(call.score), Key(call.id), Num(call.maxLen)];
    assert PackCommit(call) == head + tail;
  }

  /** So no two calls have the same argument list. */
  lemma CommitArgvInjective(a: CommitCall, b: CommitCall)
    requires Balanced(a) && Balanced(b) && PackCommit(a) == PackCommit(b)
    ensures a == b
  {
    CommitIndices(a);
    CommitIndices(b);
    hide PackCommit;
    var n, argv := |a.playerIDs|, PackCommit(a);
    assert Num(n) == At(argv, 1) == Num(|b.playerIDs|);
    forall i | 0 <= i < n
      ensures a.playerIDs[i] == b.playerIDs[i] && a.members[i] == b.members[i]
    {
      assert Text(a.playerIDs[i]) == At(argv, i + 2) == Text(b.playerIDs[i]);
      assert Raw(a.members[i]) == At(argv, i + n + 2) == Raw(b.members[i]);
    }
    assert a.playerIDs == b.playerIDs && a.members == b.members;
  }

  // ---- confirm -----------------------------------------------------------------------

  function PackConfirm(ttl: int, id: MatchID, playerIDs: seq<string>): seq<Arg> {
    [Num(ttl), Key(id)] + Texts(playerIDs)
  }

  lemma ConfirmIndices(ttl: int, id: MatchID, playerIDs: seq<string>)
    ensures var argv := PackConfirm(ttl, id, playerIDs);
      && |argv| == |playerIDs| + 2
      && At(argv, 1) == Num(ttl) && At(argv, 2) == Key(id)
      && forall i :: 3 <= i <= |argv| ==> At(argv, i) == Text(playerIDs[i - 3])
  {
  }

  // ---- dissolve ----------------------------------------------------------------------

  function PackDissolve(ttl: int, id: MatchID, declined: string, entries: seq<QueueEntry>): seq<Arg> {
    [Num(ttl), Key(id), Text(declined)] + Triples(entries)
  }

  /** Player, score and re-encoded member of each entry. */
  function Triples(entries: seq<QueueEntry>): (args: seq<Arg>)
    ensures |args| == 3 * |entries|
  {
    if entries == [] then []
    else
      var e := entries[|entries| - 1];
      Triples(entries[..|entries| - 1]) + [Text(e.playerID), Num(UnixMilli(e.enqueuedAt)), Raw(Encoded(e))]
  }

  lemma {:induction false} TripleAt(entries: seq<QueueEntry>, k: nat)
    requires k < |entries|
    ensures Triples(entries)[3 * k] == Text(entries[k].playerID)
    ensures Triples(entries)[3 * k + 1] == Num(UnixMilli(entries[k].enqueuedAt))
    ensures Triples(entries)[3 * k + 2] == Raw(Encoded(entries[k]))
  {
    if k < |entries| - 1 {
      TripleAt(entries[..|entries| - 1], k);
    }
  }

  /** The loop i = 4, 7, 10, ... reads the entries one by one and stops after the last. */
  lemma DissolveIndices(ttl: int, id: MatchID, declined: string, entries: seq<QueueEntry>, k: nat)
    requires k < |entries|
    ensures var argv, i := PackDissolve(ttl, id, declined, entries), 4 + 3 * k;
      && |argv| == 3 + 3 * |entries| && i + 2 <= |argv|
      && At(argv, 1) == Num(ttl) && At(argv, 2) == Key(id) && At(argv, 3) == Text(declined)
      && At(argv, i) == Text(entries[k].playerID)
      && At(argv, i + 1) == Num(UnixMilli(entries[k].enqueuedAt))
      && At(argv, i + 2) == Raw(Encoded(entries[k]))
  {
    TripleAt(entries, k);
  }
}

/** The values of internal/model/model.go and the encodings that the rest of the
    system exchanges through Redis. Instants are integers of nanoseconds. */
module Model {

  newtype int32 = x: int | -0x8000_0000 <= x < 0x8000_0000

  datatype Shard = Shard(region: string, mode: string, ratingBand: string)

  datatype QueueEntry = QueueEntry(playerID: string, rating: int32, enqueuedAt: int)

  datatype Status = Forming | Confirmed | Dissolved

  /** The parts of the printed match ID. */
  datatype MatchID = MatchID(shard: Shard, millis: int, seqNo: nat)

  datatype Match = Match(
    id: MatchID, shard: Shard, playerIDs: seq<string>, entries: seq<QueueEntry>,
    status: Status, formedAt: int)

  /** A sorted-set member: the JSON text of an entry, or a text that does not decode. */
  datatype Member = Encoded(entry: QueueEntry) | Malformed(raw: string)

  /** A popped entry with its raw member and its original score. */
  datatype Buffered = Buffered(entry: QueueEntry, member: Member, score: int)

  /** Go's time.UnixMilli: milliseconds since the epoch, rounded down. */
  function UnixMilli(t: int): (ms: int)
    ensures ms * 1_000_000 <= t < (ms + 1) * 1_000_000
  {
    t / 1_000_000
  }

  /** How a call to Redis ends: with a reply, executed but without one, or not executed. */
  datatype Fate = Replied | Unreplied | Unsent

  datatype Option<T> = None | Some(value: T)

  /** XADD MAXLEN of the match stream: trimming keeps at least this many of the latest. */
  const STREAM_MAX_LEN := 1000

  const SECOND := 1_000_000_000

  /** Two's-complement reduction to 32 bits. */
  function Wrap32(x: int): int32 {
    var r := x % 0x1_0000_0000;
    if r < 0x8000_0000 then r as int32 else (r - 0x1_0000_0000) as int32
  }

  function Abs(x: int): nat {
    if x < 0 then -x else x
  }

  function PlayersOf(entries: seq<QueueEntry>): (ids: seq<string>)
    ensures |ids| == |entries| && forall i :: 0 <= i < |ids| ==> ids[i] == entries[i].playerID
  {
    seq(|entries|, i requires 0 <= i < |entries| => entries[i].playerID)
  }

  function EntriesOf(group: seq<Buffered>): (entries: seq<QueueEntry>)
    ensures |entries| == |group| && forall i :: 0 <= i < |entries| ==> entries[i] == group[i].entry
  {
    seq(|group|, i requires 0 <= i < |group| => group[i].entry)
  }

  function MembersOf(group: seq<Buffered>): (members: seq<Member>)
    ensures |members| == |group| && forall i :: 0 <= i < |members| ==> members[i] == group[i].member
  {
    seq(|group|, i requires 0 <= i < |group| => group[i].member)
  }

  /** The same match except, possibly, for its status. */
  predicate SameMatch(a: Match, b: Match) {
    a == b.(status := a.status)
  }
}

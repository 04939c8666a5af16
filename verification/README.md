# Matchmaking protocol: a Dafny model

The system matches waiting players into groups of *n*. Its shared state lives in Redis and
changes only through small atomic Lua scripts; API handlers, one worker per shard and a
reconciler interleave freely between those scripts, workers crash, and replies get lost. This
project models that protocol and proves what every interleaving keeps. `dafny verify
dfyconfig.toml` checks all of it.

## How the project is built

* `Model`, `RatingBand`, `Grouping` - the values; the band of a rating; `selectGroup` as real
  loops over sequences, in 32-bit arithmetic, with what the greedy fill guarantees. `Order` -
  parts of a list, by positions.
* `Scripts` - one shard's keys as a value (`Db`) and each Lua script as a function on it.
  `Argv` - the flat argument lists and the 1-based indices that read them back.
  `Redis` - the keys as an object (`ShardKeys`); the scripts as methods with the scripts' own
  loops, each shown to do what its function says.
* `Protocol` - the shard as a step machine (`Sys`, `Action`, `Apply`). Each script is a step; Go
  code between two Redis calls is cut into separate steps. A worker may crash anywhere, a pop
  or commit reply may be lost, a commit may not arrive, the cancelled check and its clearing
  may fail, and the pipeline of `repushGroup` may break off at any command. Requests of the API
  and the reconciler are records in flight that read first and run their script later.
  `Reachable` holds of the states of all runs from empty keys.
* `Conservation`, `Recovery`, `Matches`, `Cancellation`, `Spread` - what all runs of one shard
  keep. `World` - all shards together, with joins routed by rating and a cancelled set shared
  per region and mode; every shard of every history is a run of the one-shard machine.
* `PopLoop` - the worker as a class: `popOnce`, `commitMatch` and `repushGroup` as methods over
  `ShardKeys`. Between any two of its Redis calls anyone else takes any number of steps, and
  every call may fail; each call is proved to be one step of the machine, so every theorem about
  reachable states holds of the program. `Reading` says what a batch and its candidates have in
  common, and `Progress` what a sequence of turns gets done. `Requests` does the same for the accept and decline
  handlers with the two-phase `Confirm` and `Dissolve`, and for `Sweep`, the reconciler.
* `Stream` - delivery of committed matches to PostgreSQL, beside the protocol and then with it;
  `Lock` - the shard lock; `Hub` - the client registry. In each of them the objects of the source
  take the steps of a small machine about whose runs the theorems are. `ShardList` - printing and
  parsing shards.
* `Starvation`, `Rejoin`, `StaleFlag`, `Outsider` - concrete histories of the system that show where a
  guarantee stops, built with `Runs` and `Scenario`.

Instants are nanoseconds, scores are milliseconds. A sorted-set member is either the encoding of
an entry or a text that does not decode (`Member`); the encoding is injective. A match ID is the
triple of shard, milliseconds and sequence number.

What a run assumes of its surroundings is written in `Protocol.Enabled`: a joining member is new
(it contains its own nanosecond), a worker starts only when none is up (the lock, proved in
`Lock`), and the clock has advanced past the millisecond of every existing match ID by the time
the next worker starts, and does not go back while a worker lives.

## Where the code differs from its comments

The model follows the code.

* `joinScript` (internal/queue/client.go:36-40) checks neither a double join nor a pending
  cancellation and always returns 1. What a guarantee needs of a player's other entries it says
  in the terms of `Cancellation` (an entry is open while it waits or its match is forming, and
  loose unless it was left on the shelf in processing); `Rejoin` shows that it is needed.
* The comment on `Cancel` (internal/queue/client.go:89-92) says that the worker clears a cancelled
  player after discarding. It does so only for an entry that it pops: the flag of a player who
  was not waiting stays and costs the next join (`StaleFlag`).
* The comment on conflicts (internal/worker/worker.go:454-456) says the cancelled player is
  skipped on the next pop. That holds of the lifetime in which it happens; the discarded entry
  stays in processing and the next worker's drain brings it back without its flag
  (`Rejoin.RestartingDefeatsCancel`).
* A pop that fails is treated as an empty queue (internal/worker/worker.go:361-363), although the
  script may have run; the members it moved stay in processing until the next drain.
* `popOnce` leaves before the grouping loop when nothing, or nothing well-formed, was popped
  (internal/worker/worker.go:386-392, 411-413), so waiting alone never forms a match
  (`Starvation`).
* Neither accept nor decline checks that the player belongs to the match
  (internal/api/handler.go:34-57); "first decline" means the first of that player. A confirmed
  match has enough acceptors, not necessarily its own players
  (`Matches.AcceptedByPlayersIff`, `Outsider`).
* The sweep asks for scores from 0 on (internal/reconciler/reconciler.go:48-51), so a match formed
  before 1970 would never time out.

## Model

| member | source | states |
|---|---|---|
| Protocol.AnythingMayHappen | internal/worker/worker.go:338-464 | no guard of the machine rules out a crash, a lost reply, a failed call, a cancel, a join of a new member, an accept or decline, another shard or an abandoned request |
| Conservation.EachMemberInOnePlace | internal/worker/worker.go:55-119 | in every reachable state each member that ever joined is in exactly one of: queue or processing, one live match, or dropped by a dissolve; never in two live matches |
| Conservation.OnlyJoinedMembers | internal/worker/worker.go:380-464 | nothing waits, plays or is carried by the worker that did not join, and all that the worker carries is in processing, so a drain recovers it |
| Conservation.InvStep | internal/matchops/ops.go:36-67 | every step, with any fault, keeps the invariant: buffer and hand are without repetitions, apart, inside processing and outside the queue except for the pushed back part; live matches are disjoint from both; status, record and forming set agree |
| Conservation.DroppedOnlyByDissolve | internal/matchops/ops.go:50-60 | a member leaves the system only in a dissolve that takes effect, and only if its player declined or is cancelled then |
| Conservation.DissolveSortsEntries | internal/matchops/ops.go:50-60 | and every entry of the match does one or the other: it waits again at the millisecond of its enqueueing, or, if its player declined or is cancelled, it has left the system |
| Conservation.ScoreIsEnqueueTime | internal/worker/worker.go:582-592 | wherever a member waits its score is the millisecond of its own enqueueing, through pop, push back, drain and dissolve |
| Conservation.OldestFirst | internal/worker/worker.go:55-61 | a popped batch is in order of enqueueing and nobody left behind is older |
| Recovery.RestartForgetsUncommittedWork | internal/worker/worker.go:67-78 | after any run without an effective commit or dissolve, a crash and a drain leave processing empty and the queue equal to the first waiters and the joins since, scores included |
| Matches.MatchesAreFinal | internal/worker/worker.go:106-108 | over every run players, entries and shard of a committed match never change, and confirmed and dissolved are absorbing |
| Matches.StatusAgrees | internal/matchops/ops.go:36-49 | in every reachable state status key, record status and membership of the forming set agree, and the forming score is the formation instant |
| Matches.RecordShape | internal/worker/worker.go:519-534 | a stored match has n entries and n players, player number i being the player of entry number i, under its own ID and shard |
| Matches.TwoPhaseDissolve | internal/matchops/ops.go:106-137 | a dissolve with a record read at any earlier time equals one that reads it inside the script, on the right shard's keys |
| Matches.TwoPhaseConfirm | internal/matchops/ops.go:157-182 | a confirm's stale record has the shard, players and entries of the stored one |
| Matches.SettledOnce | internal/matchops/ops.go:80-101 | of all confirm and dissolve calls for a match at most one ever returns 1, exactly when the match is settled; at most one accept call sees the full count |
| Matches.SettledByOneStep | internal/matchops/ops.go:80-101 | over every run exactly one confirm or dissolve step settles a match that ends settled, and none one that does not; so of all calls exactly one gets the reply on which a settlement is published, unless that reply is lost |
| Matches.ConfirmedHasAcceptors | internal/api/handler.go:34-41 | a confirmed match has at least as many distinct acceptors as players |
| Matches.ConfirmedByPlayersIff | internal/api/handler.go:34-41 | a confirmed match was accepted by exactly its own players if and only if nobody else accepted it, and then no player is in it twice |
| Matches.AcceptedByPlayersIff | internal/api/handler.go:34-41 | over every run: a confirmed match was accepted by exactly its own players if and only if every recorded accept call for it came from one of them, which a check of the caller against the record read before the script would ensure |
| Outsider.OutsiderConfirms | internal/api/handler.go:34-41 | a history of the system that ends with a confirmed match which one of its players never accepted and an outsider did |
| Matches.DeclinerNeverConfirmed | internal/api/handler.go:34-57 | although decline and dissolve are two calls, a player who declined before accepting is never in a confirmed match, if only players of the match accept it |
| Matches.AcceptorsGrowThenFreeze | internal/api/handler.go:34-41 | the accepted set grows only by accepts while the match forms and is frozen afterwards |
| Matches.DeclinersAre | internal/api/handler.go:51-57 | over every run the declined set of a match holds exactly the players for whom a decline ran while it was forming |
| Cancellation.CancelledNeverCommitted | internal/worker/worker.go:99-105 | from a cancellation on, within one worker lifetime, no match formed includes the player, wherever the entry was and even if the check failed; earlier entries that are confirmed, dropped or shelved may be any number, but not two loose ones at a time, and no join after the flag was cleared |
| Cancellation.CancelledForGood | internal/queue/client.go:89-97 | the condition as a caller can check it: at most one loose entry when the cancel runs, and no later join of the player |
| Cancellation.OneOpenEntryIsEnough | internal/worker/worker.go:99-105 | the same for a player who never has two entries that count, those on the shelf included |
| Cancellation.HeldStep | internal/worker/worker.go:415-440 | every step keeps: the flag is set, or none of the player's entries is loose |
| Cancellation.LooseStep | internal/worker/worker.go:429-433 | within a lifetime nothing but a join makes an entry loose: settled and shelved ones do not come back |
| Cancellation.CancelledFrame | internal/worker/worker.go:436-440 | only a cancel sets a flag and only a worker that has discarded takes one away; confirming and dissolving leave it |
| Rejoin.RejoiningDefeatsCancel | internal/queue/client.go:36-40 | a history of the system, within one worker lifetime, in which a cancelled player joins again and the old entry is committed |
| Rejoin.RestartingDefeatsCancel | internal/worker/worker.go:429-440 | a history of the system, for matches of two, in which a cancelled player's only entry is discarded, drained by the next worker and committed, without any join |
| Spread.MatchWithinWindow | internal/worker/worker.go:472-510 | the distance of anyone in a stored match from its first entry is at most 300, and at most min(300, 50 + 5 * wait), if and only if it fits in 32 bits |
| Spread.MatchInReach | internal/worker/worker.go:478-493 | the same in nanoseconds: anyone further than 50 points from the first entry of a stored match is there only if (distance - 50) seconds are at most five times the wait when the group was chosen |
| Spread.LeastRatingIsNearZero | internal/worker/worker.go:489-493 | ratings 0 and -2147483648 share a band, and selectGroup puts them together at once because the 32-bit distance wraps |
| World.Projection | internal/queue/client.go:64-87 | in every history of all shards each shard runs the one-shard protocol |
| World.OneShardHistory | internal/queue/client.go:64-87 | conversely every run of one shard whose joins are of its own band is a history of the system |
| World.EntriesStayInBand | internal/queue/client.go:69-79 | every entry in a shard's queue, processing, worker or match records has that shard's rating band, always |
| World.MatchSpread | internal/queue/client.go:121-135 | two players of one match rated in [1000, 2400] differ by at most 299 |
| World.CancelledNeverMatched | internal/queue/client.go:49-54 | cancellation safety for a shard of a region and mode that share the cancelled set: whichever band's worker clears the flag, it has discarded the one loose entry |
| World.NeverMatchedAfterCancel | internal/queue/client.go:89-97 | the condition as a caller can check it, over all bands: at most one loose entry when the cancel runs, and no later join of the player |
| StaleFlag.NextJoinIsLost | internal/worker/worker.go:429-433 | a history of the system in which a player cancels without waiting, joins later, and the entry is discarded and left in processing |
| StaleFlag.UnflaggedIsBuffered | internal/worker/worker.go:427-435 | over all histories: an entry whose player is not flagged at its join and for whom nobody cancels afterwards is buffered by every check that sees it, never discarded |
| Starvation.WaitingAloneFormsNothing | internal/worker/worker.go:386-392 | over every run from an idle worker with nothing decodable to pop, whatever anyone does short of a join, an effective dissolve and a restart, the buffer stays as it is and no match is formed |
| Starvation.PairIsLeftWaiting | internal/worker/worker.go:411-413 | a history of the system ends in such an idle state with a pair buffered that selectGroup would accept later |
| Starvation.PairBecomesPossible | internal/worker/worker.go:477-486 | that pair is refused at two seconds and accepted at any time from the first player's 42nd second on |
| RatingBand.BandNamesLower | internal/queue/client.go:121-135 | two ratings have the same band name if and only if they have the same lower bound |
| RatingBand.BandTable | internal/queue/client.go:121-135 | the five names, for every 32-bit rating, the clamps at both ends included |
| RatingBand.BandSpread | internal/queue/client.go:121-135 | two ratings in [1000, 2400] of one band differ by at most 299 |
| RatingBand.BandsAreIntervals | internal/queue/client.go:122-133 | the bands are consecutive intervals of ratings |
| RatingBand.BandSpreadIff | internal/queue/client.go:121-135 | over all ratings, any two of the band of k differ by at most 299 if and only if 1300 <= k < 2200: the clamp makes the first and the last band endless |
| Grouping.WindowExactIff | internal/worker/worker.go:478-482 | the 32-bit window is the intended one for all waits up to a bound if and only if the bound is at most 429496719 s |
| Grouping.WaitIsTruncated | internal/worker/worker.go:478 | the wait in seconds is the nanoseconds rounded toward zero: down from zero on, up before it |
| Grouping.NearIsInReach | internal/worker/worker.go:478-493 | near in the arithmetic of the code is: at most 50 points, or at most 300 and the wait has lasted a second for every five points above 50, begun fives counted |
| Grouping.WindowOverflows | internal/worker/worker.go:478-482 | one second later the window is negative |
| Grouping.DiffExactIff | internal/worker/worker.go:489-492 | the 32-bit distance is exact if and only if it fits, in particular for ratings of one sign |
| Grouping.SelectSound | internal/worker/worker.go:472-510 | a found group has n entries, the head first, all inside the head's window; group and remaining together are the buffer as a multiset |
| Grouping.SelectExact | internal/worker/worker.go:488-500 | a group is found if and only if at least n - 1 others are inside the head's window |
| Grouping.GroupIsGreedy | internal/worker/worker.go:488-496 | the group is the head and the earliest near entries, and remaining is the rest in order |
| Grouping.GroupPositions | internal/worker/worker.go:484-496 | the positions of the group and of the rest in the buffer: both increasing, together all of it, the head first, and no near entry passed over before the last one taken |
| Grouping.SelectMeans | internal/worker/worker.go:472-510 | in instants and ratings: a group is found if and only if n - 1 others are in reach of the head, and it is the head and the first n - 1 of them; everyone else stays in order |
| Grouping.SelectMonotone | internal/worker/worker.go:478-482 | a group that exists now exists later |
| Grouping.SelectStable | internal/worker/worker.go:472-510 | entries appended to the buffer change neither the group nor the rest before them |
| Grouping.FiftySeconds | internal/worker/worker.go:442-447 | ratings of one band, n entries and a head that waited 50 s always give a group |
| Grouping.SelectGroup | internal/worker/worker.go:472-510 | the loops compute the selection that the lemmas speak about: found if and only if n - 1 others are in reach in nanoseconds and points, and then the earliest of them |
| Grouping.Fill | internal/worker/worker.go:484-496 | the filling loop and its flags compute the greedy group and its complement |
| Argv.CommitIndices | internal/worker/worker.go:548-562 | for every n the commit script's indices read back exactly the count, players, members and trailing fields; 2n + 6 arguments |
| Argv.CommitArgvInjective | internal/worker/worker.go:548-562 | different commit calls have different argument lists |
| Argv.ConfirmIndices | internal/matchops/ops.go:165-169 | the confirm script's indices read back TTL, ID and players |
| Argv.DissolveIndices | internal/matchops/ops.go:112-122 | the stride-3 loop of the dissolve script reads every triple, none out of range |
| Redis.ShardKeys.ZPopMin | internal/worker/worker.go:55-61 | the least scores leave the queue in order, exactly the returned members and no others |
| Redis.ShardKeys.PopToProcessingScript | internal/worker/worker.go:55-61 | the loop moves the popped members with their scores and nothing else: each member of processing has the score it had in the queue or before |
| Redis.ShardKeys.DrainProcessingScript | internal/worker/worker.go:67-78 | the loop puts every processing member back with its score and empties processing |
| Redis.ShardKeys.CommitMatchScript | internal/worker/worker.go:99-119 | reading ARGV by index, refuses a cancelled player without any change, and otherwise records the match and removes exactly its members |
| Redis.ShardKeys.AcceptScript | internal/api/handler.go:34-41 | reply and new state for every status and membership |
| Redis.ShardKeys.DeclineScript | internal/api/handler.go:51-57 | reply and new state for every status and membership |
| Redis.ShardKeys.ConfirmScript | internal/matchops/ops.go:80-101 | settles the match of its ARGV once, and otherwise changes nothing |
| Redis.ShardKeys.DissolveScript | internal/matchops/ops.go:36-67 | settles the match once and requeues exactly the entries whose players neither declined nor are cancelled |
| Redis.ShardKeys.Requeuing | internal/matchops/ops.go:50-60 | the loop over the triples, by index |
| PopLoop.MatchMaker.PopOnce | internal/worker/worker.go:380-464 | under any interference and any faults: the oldest two dozen are popped, and every decodable one of them is read once and in order if the reply comes; buffered and popped entries are, as a multiset, returned, discarded, committed, pushed back, stuck or in hand; order kept; committed groups are stored records; processing lost exactly the committed and pushed back; no group is left when it ends; a turn that read nothing changes no buffer; with nobody else acting, the players cancelled at the start are the ones discarded and cleared, and exactly the groups without a cancelled player are committed; and the state stays reachable |
| Reading.ParseIsReadOnce | internal/worker/worker.go:400-409 | the candidates are the decodable members of the batch with their scores, all of them, in the order of the batch |
| Reading.ReadOnceMeans | internal/worker/worker.go:400-409 | so every decodable popped member is a candidate, at one position only |
| Reading.FlaggedIsSifted | internal/worker/worker.go:427-435 | the discarded and the buffered candidates are exactly those with and without a flag, in order |
| PopLoop.MatchMaker.Refill | internal/worker/worker.go:380-440 | the half before the commit loop: what was moved, read, discarded and buffered, and whose flags were cleared |
| PopLoop.MatchMaker.CommitGroups | internal/worker/worker.go:442-461 | the commit loop ends, keeps the books above, and stops with no group to select |
| PopLoop.MatchMaker.CommitOrRepush | internal/worker/worker.go:449-460 | one round: committed and stored, pushed back, stuck, or in hand on an error |
| PopLoop.MatchMaker.CommitMatch | internal/worker/worker.go:515-580 | packs and commits under a fresh ID, exactly when no player is cancelled; an error hides whether the script ran |
| PopLoop.MatchMaker.RepushGroup | internal/worker/worker.go:582-595 | a pipeline cut at any command: with nobody else acting exactly the members before the cut are pushed; complete if and only if all were sent, and then all members are in the queue and none in processing |
| PopLoop.MatchMaker.PopBatch | internal/worker/worker.go:356-377 | what the script moved, and what the worker sees of it for each way the call can end |
| PopLoop.MatchMaker.CheckCancelled | internal/worker/worker.go:415-424 | flags exactly the cancelled candidates, or nobody if the call fails |
| PopLoop.MatchMaker.Sift | internal/worker/worker.go:426-434 | unflagged candidates behind the buffer in order, flagged ones to be cleared |
| PopLoop.MatchMaker.Run | internal/worker/worker.go:153-179 | drain, then popOnce again and again: one turn a round, each with all that PopOnce guarantees, from the state that the turn before left; after any number of turns the shard is in a reachable state of the protocol, and only a commit call without a reply ends the worker early |
| Progress.EverybodyIsServed | internal/worker/worker.go:338-352 | nobody else acting, nobody cancelled, pops and commits answered, and a turn for every two dozen who waited in queue and processing: the queue is empty, and each of them is malformed, in the buffer, or in a stored match |
| PopLoop.FiftySecondBound | internal/worker/worker.go:442-447 | after a turn that read a candidate and did not fail, with ratings of one band in range, fewer than n entries are left or the head had waited under 50 s at the last selection |
| PopLoop.OthersOnward | internal/queue/client.go:36-54 | nobody but the worker takes a member out of the queue, touches processing or changes a record beyond its status |
| Requests.Handler.Accept | internal/api/handler.go:158-212 | the answer for each reply and each way that a call can end, under any interference; 404 exactly for an unknown match, a failed read of the record, and a settled match whose status could not be read; the call that saw the full count returns only once the match is settled, if its confirm script ran; with nobody else acting, the exact reply and the exact keys afterwards, a full count confirming the match |
| Requests.Handler.Decline | internal/api/handler.go:214-246 | each answer likewise; a player's first decline returns only once the match is settled, if its dissolve script ran; with nobody else acting, the exact keys afterwards, the first decline dissolving the match |
| Requests.Handler.Confirm | internal/matchops/ops.go:157-182 | under any interference between reading and script the match ends up settled; what is published is the settlement by this very call, and with nobody else acting it is published if and only if the read and the reply came and the match was forming, and the keys are exactly those of the script |
| Requests.Handler.Dissolve | internal/matchops/ops.go:106-137 | the same for dissolving |
| Requests.Handler.Join | internal/queue/client.go:64-87 | a join that gets its reply never fails, cancelled or not; the entry waits under its own millisecond and no other key changes |
| Requests.Handler.Cancel | internal/queue/client.go:93-98 | records the player and changes no other key |
| Requests.StepAhead | internal/matchops/ops.go:80-101 | no step takes back a record, a final status, an accept or a decline |
| Sweep.Reconciler.ProcessTimedOut | internal/reconciler/reconciler.go:45-61 | after the sweep no match of a listed shard formed 30,000,000,000 ns ago or earlier (from the epoch on) is forming, except where a query or a call failed, and every match that it dissolved was formed more than 29,999,000,000 ns before, whatever anyone else does in between, commits included; with nobody else acting, the matches that left the forming ones are exactly those dissolved |
| Sweep.Reconciler.DissolveMatch | internal/matchops/ops.go:106-137 | reading and script are steps of the protocol with anything between them; afterwards the match is not forming, unless a call failed; with nobody else acting it is dissolved by this call if and only if both calls ran and it was forming |
| Sweep.Reconciler.ZRangeByScore | internal/reconciler/reconciler.go:48-51 | exactly the forming matches scored between 0 and the deadline |
| Sweep.StepIsLater | internal/reconciler/reconciler.go:45-61 | every step of the protocol but a commit timed before the deadline brings no new timed-out match |
| Stream.CommittedIsDelivered | internal/worker/worker.go:117 | in every reachable joint state every committed match is stored, or its message is still in the stream and undelivered or pending, or it was trimmed with a thousand messages from it on |
| Stream.StoredIsCommitted | internal/store/match.go:9-18 | stored rows come only from committed matches, one per match, and acknowledged implies stored |
| Stream.Consumer.ClaimStale | internal/worker/worker.go:257-283 | the cursor loop, every call an event of the delivery machine, ends with every claimable pending message stored and acknowledged unless its processing failed, and no row changed |
| Stream.Consumer.ProcessStreamEntry | internal/worker/worker.go:315-328 | insert if absent, then acknowledge; either may fail and leaves the message pending |
| Stream.Consumer.XAutoClaim | internal/worker/worker.go:261-281 | the pending messages between the cursors, a hundred at most, and progress |
| Stream.Consumer.XReadGroup | internal/worker/worker.go:285-294 | the next ten undelivered messages at most, in order, pending from then on even if the reply is lost |
| Stream.Consumer.ConsumeTurn | internal/worker/worker.go:285-313 | one turn of the consumer loop: each message read is stored and acknowledged unless its processing failed, the others stay pending, and no row changed |
| Lock.MutualExclusionIff | internal/worker/worker.go:181-221 | at most one worker is active (under 5 s after its last acquire or renew) in every reachable state if and only if no two processes share an identity |
| Lock.SharedIdentity | internal/worker/worker.go:148-151 | two processes with one identity get to be active together |
| Lock.LateWorkersOverlap | internal/worker/worker.go:200-221 | without the 5 s bound owners overlap, whatever the identities |
| Lock.ForeignLockUntouched | internal/worker/worker.go:35-49 | renew and release never extend or delete a lock held by another identity |
| Lock.LockLasts | internal/worker/worker.go:23-49 | a lock taken now is held for five seconds and then free for everyone; a renewal starts five new ones |
| Lock.Locker.AcquireShardLock | internal/worker/worker.go:181-198 | the retry loop, with others moving in between: a free or expired lock is taken at the first answered call if nobody else moves; success exactly when the process holds the lock for five seconds from now, and with distinct identities nobody else is active then |
| Lock.Locker.RenewLockLoop | internal/worker/worker.go:200-221 | a renewal at every tick; with distinct identities the lock is found lost only five seconds or more after the last successful call; after the last tick the lock lasts five seconds from the last renewal; the loop always ends with the process stopped |
| Lock.Locker.ReleaseShardLock | internal/worker/worker.go:223-231 | after the script the identity holds no lock, a lock that it did not hold is as before, and with distinct identities no active process loses its lock to it |
| Lock.LockKey.TryAcquire | internal/worker/worker.go:181-190 | taken exactly when it was free or had expired |
| Hub.RegistryIsClean | internal/hub/hub.go:72-86 | under any order of messages, unregister before register included, no channel is closed twice, every client in the map is open and under its own player, and a registered connection is either in the map or closed |
| Hub.StaleUnregister | internal/hub/hub.go:82-86 | after any messages that registered a connection and took it out of the map again, any number of unregistrations of it at any later points leave the registry as it would be without them |
| Hub.NewestWins | internal/hub/hub.go:75-79 | the newest connection of a player stays until it is unregistered itself |
| Hub.RegisteringTwiceClosesTwice | internal/hub/hub.go:75-79 | registering one connection twice would close a channel twice |
| Hub.ClientHub.HandleRegister | internal/hub/hub.go:75-80 | the objects after the message are what the registry becomes: the map, and the replaced channel closed once |
| Hub.ClientHub.HandleUnregister | internal/hub/hub.go:82-86 | likewise: removed and closed exactly when it is the current connection |
| ShardList.RoundTripIff | internal/reconciler/config.go:40-51 | printing, joining with commas and parsing gives the list back if and only if every shard is printable |
| ShardList.MalformedIsSkipped | internal/reconciler/config.go:44-47 | a malformed entry anywhere between the commas changes nothing |
| ShardList.PrintedParses | internal/model/model.go:20-25 | the print of a printable shard parses to it and contains no comma |
| ShardList.ParsesExactlyIf | internal/reconciler/config.go:43-50 | an entry parses to a shard if and only if, without the spaces around it, it is region, mode and band between slashes, none empty and the first two without a slash |
| ShardList.PaddedParses | internal/reconciler/config.go:43 | the print of a printable shard parses to it with any spaces around it |
| ShardList.SpacesAre | internal/reconciler/config.go:43 | blanks, tabs and line ends are spaces, and no printable ASCII character is |
| ShardList.BandlessDoesNotParse | internal/model/model.go:20-25 | a shard without a band prints as region and mode, which the list skips |
| ShardList.ParseShards | internal/reconciler/config.go:40-51 | the loop computes the parse that the lemmas speak about |

## Left out

- Expiry of match, accepted, declined and cancelled keys: all protocol properties are about the time before it. Only the lock has a time to live.
- A Redis call runs its script at most once: the Redis client's own retries of a call whose reply was lost are not modelled.
- A pipeline that reported an error does nothing afterwards: were its ZREM carried out later, after the worker had popped the members again, they would be lost.
- Workers that act after losing the lock: the commit script does not fence them; the protocol has one worker at a time, which is what `Lock` proves of active workers.
- The `inqueue` set: nothing reads it.
- Lua's limit on `unpack`: a drain of several thousand entries would fail in the script.
- `Seconds()` as a float: its rounding matters only beyond half a year of waiting; a duration outside 32 bits converts as on amd64; scores are exact milliseconds.
- JSON and cjson: an injective encoding; the re-encoding of an entry by a dissolve is the text that joined. The printed form of a match ID is the abstract triple.
- Ties of ZPOPMIN: any order among equal scores is allowed.
- PopLoop.MatchMaker.Run: the drain is fault-free, and the lock, the stream loops and cancellation of the context beside the pop loop are not interleaved in it; each is modelled in its own module.
- Sweep.Reconciler.ProcessTimedOut: a commit that took its time 30 s or more before its script runs is excepted from the interference; such a match would be swept the next time.
- Stream.Consumer.ClaimStale: the cursor is the index of a message, and nobody commits while the worker starts; nor during the consumer's turn (`ConsumeTurn`), where a commit would only add messages for the next one.
- Postgres status updates: an UPDATE can run before the INSERT, and the schema differs from the columns written; only the insert-if-absent is modelled.
- Hub replay and fan-out: best-effort deliveries that depend on timing.
- HTTP decoding, WebSocket pumps, publishing, logging, configuration and `main`; the rating cache, the seeder and the server allocation stub.

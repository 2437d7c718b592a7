# Verified model of the game server's stateful components

This project models the parts of the repository that keep state across
requests, gateways or browser sessions, and proves what they promise. Each
component is one module. Code that updates state in place is a class whose
methods are proved against functions on a value of its fields; those functions
are then the steps of state machines, and the theorems quantify over every run,
every interleaving or every input.

**Live state delivery.** `StateLogTransport` is the per-socket encoder that
sends log suffixes, and the browser's decoder. On any channel (frames lost,
repeated, reordered, decoder reset at any time) the decoder delivers the encoded
state or an error, never a wrong state; on an ordered channel it rebuilds every
state. `ClusterEvents` is the stored form of cluster events, with an exact round
trip. `ClusterEventPoll` is the coalescing poll, shown to be indistinguishable
from handling every stored event on its own; over any run of polls on a log that grows
and is swept, it reads exactly the rows that became visible beyond the cursor.
`VersionGate` and `RoomCommands` are the browser's message filter and its
one-command-in-flight pipeline with coalesced defender staging: at most one
command is unanswered in every reachable state, a click always wins as a whole
set although it is merged as a delta, and the system of browser, wire and server
converges. Others may commit at any time, any number of updates may be on the
wire, commands may be refused and connections may break; when the wire is quiet
the browser shows the authoritative set, and that is the last one asked for, by a
click or by another command that changed it, unless the browser gave it up.

**Replays.** `ReplayNotes` takes one replay from recording to ready: appended
frames, undo pruning, paged reading, notes keyed by room version and re-keyed by
frame index at finalization. `ReplayReads` is the note read that asks twice, with
anything committed in between. `ReplayRetention` is favourites, deletion, expiry
and sweeping by any number of gateways. `ReplayFinalizer` is the deduplicating
work queue, turn by turn of the event loop.

**Matches.** `MatchRecords` keeps hero and matchup counters beside the match
rows and compares them with the count over the rows after every run.
`MatchHistory` is keyset pagination with a printed cursor. `MatchGames` joins the
two: from joining a room to the history page, paging is complete in every table
the server can reach.

**Coordination.** `Leases` interleaves the separate statements of many gateways'
lease calls. `RulesetFence` interleaves room creation with initialisation and
cutover of the active ruleset. `KdfSlots` is the slot semaphore with hand-over.
`RateLimits` is the shared fixed-window limiter with sweeps.

**Play helpers.** `PassUntil` is the pass latch and its stored JSON.
`Achievements` is the two-phase award. `DrawOdds` is the bot's hypergeometric
odds, unseen-card counts and averages, over the reals.

**Deck text.** `DecklistText` is the tolerant decklist parser over real strings,
`DecklistForms` what it makes of the forms a deck export uses, `PrintedDecklist` the
printed card line and exactly when it reads back,
`Fabrary` the decoded response printed as text, and `DeckPools` validation into
a registered pool and the repair applied when a stored pool is read.

`Common` and `Decimals` hold small shared facts (sequences, decimal numerals).

## What the proofs found

- Finalizer: `queued` relies on the capacity wait not throwing. A wait that
  rejects keeps the queue sound exactly when the queue is stopped or the work in
  hand is no replay (`ReplayFinalizer.CapacityFailureSound`); otherwise the id
  stays in `queued` and out of the pending work in every later run without a stop,
  however often it is asked for (`ReplayFinalizer.StrandedForGood`, and a run in
  `ReplayFinalizer.AStrandedReplay`). The default wait is a timer and does not throw.
- Cluster log: a row is read if and only if its id was beyond the cursor when it
  became visible and it was not swept unread (`ClusterEventPoll.ReadIffTimely`).
  A transaction that commits after a poll has passed its id is therefore missed
  (`ClusterEventPoll.ARowIsMissed`).
- Replay notes: the notes and the frames of an answer come from two queries. With
  no save of the reader in between, the answer is that of the first moment or of the
  second, exactly unless a finalization comes in between while a note of the reader
  is left; then it is empty, as at no moment (`ReplayReads.ReadApart`, and a run in
  `ReplayReads.AnEmptiedAnswer`). After a prune it is the later snapshot
  (`ReplayReads.PrunedBetweenReads`).
- Fence: activating a ruleset name longer than 160 characters leaves a fence that
  admits nobody (`RulesetFence.CutoverAdmits`, `RulesetFence.ACutoverAdmitsNobody`).
- Leases: a renewal may shorten a lease (`Leases.RenewalMayShorten`).
- Deck text: a deck name prints entries of its own unless its first line has no
  other line terminator and the parser passes over every later line: blank lines,
  comments, section names, headers and advertisements (`Fabrary.NameLines`, and a
  name in `Fabrary.ANameThatPrintsAnEntry`); card names survive exactly when
  `PrintedDecklist.WellFormed` holds (one that does not in
  `PrintedDecklist.ANameReadAsPitch`).
- Rate limits: twice the maximum is reached across a window boundary
  (`RateLimits.TwiceIsReached`).

## Assumptions

- A `withTransaction` body is one atomic step that rolls back on a throw
  (apps/server/src/db.ts:29-46). A bare query is one atomic step.
- `randomUUID` and random identifiers never repeat. SHA-256 is modelled as the
  text that is hashed.
- Handlers called by the poll do not throw: the cursor moves before a row is
  handled (apps/server/src/clusterEvents.ts:339-366).
- A recording whose room is gone never finishes: the room commit that would end it
  needs the room (`ReplayRetention.Enabled`).
- During a game a seat keeps its account or loses it (deletion); it is never given
  to another account (`MatchGames.SeatedAs`).
- The room answers every stage command that reaches it, in order, and tells a
  browser about versions in ascending order (`RoomCommands.Step`).
- A room's version only grows, so a recorded frame is stored past every version used
  before it, also after an undo (apps/server/src/store.ts:1573, 4409;
  `ReplayReads.Possible`).
- Clocks of the rate limiter do not run backwards; leases assume nothing of clocks.
- An undo may name any version: a prune that empties a recording is allowed by the
  model, and such a replay is then refused by finalization.

## Model

| member | source | states |
|---|---|---|
| StateLogTransport.FindOverlap | apps/server/src/stateLogTransport.ts:33-43 | The drop found is the smallest one whose remaining old log begins the new log, so the overlap kept is the longest; none is found only when no non-empty overlap exists. |
| StateLogTransport.Encoder.Reset | apps/server/src/stateLogTransport.ts:15-19 | A new stream starts at sequence 0 with no baseline; what was sent before stays coherent. |
| StateLogTransport.Encoder.NextFrame | apps/server/src/stateLogTransport.ts:21-46 | The frame carries the full state, or a delta against the previous state of the same game, seat and shape that retains the longest overlap. |
| StateLogTransport.Encoder.Encode | apps/server/src/stateLogTransport.ts:21-49 | Sequence numbers run 1, 2, 3… within a stream and every frame is coherent with the one sent before it. |
| StateLogTransport.DeltaIsSent | apps/server/src/stateLogTransport.ts:21-43 | A delta goes out iff the next state continues the last one and some end of the old log begins the new one (or the old log is empty), and it keeps the longest such end. |
| StateLogTransport.LiveDecoder.Decode | packages/protocol/src/index.ts:3071-3105 | A frame decodes to a state or to an error that clears the baseline. |
| StateLogTransport.AcceptedExactly | packages/protocol/src/index.ts:3071-3105 | A full frame is accepted iff it is numbered and its view intact, and handed on as it is; a delta iff besides it continues the remembered state and leaves an intact view. |
| StateLogTransport.FrameIdentity | apps/server/src/stateLogTransport.ts:6-19 | Stream and sequence identify one frame of a socket's whole history. |
| StateLogTransport.DeltaRestores | packages/protocol/src/index.ts:3092-3098 | Dropping, then appending the delta gives back the new log and its structured entries. |
| StateLogTransport.NeverDeliversAWrongState | packages/protocol/src/index.ts:3063-3105 | For any deliveries in any order, with losses, repeats and resets, every result is an error or exactly the state encoded into that frame. |
| StateLogTransport.StepRebuilds | packages/protocol/src/index.ts:3083-3104 | One frame delivered in place decodes to its state and leaves the decoder ready for the next. |
| StateLogTransport.RebuildsEveryState | apps/server/src/stateLogTransport.ts:12-49 | A decoder that keeps only its last log rebuilds every state of every history of encodes and resets, entries included. |
| ClusterEvents.Append | apps/server/src/clusterEvents.ts:187-253 | The inserted row is the event's stored form, column by column. |
| ClusterEvents.DecodeEncodeRoom | apps/server/src/clusterEvents.ts:58-72 | A stored room event reads back as itself iff well formed, presence included. |
| ClusterEvents.DecodeEncodeInvite | apps/server/src/clusterEvents.ts:149-174 | A stored invite reads back as itself iff well formed, with and without a pool mode. |
| ClusterEvents.DecodeEncode | apps/server/src/clusterEvents.ts:51-185 | Every event reads back as itself when well formed, and as nothing otherwise. |
| ClusterEventPoll.Consumer.Poll | apps/server/src/clusterEvents.ts:324-369 | One poll delivers the coalesced form of its batch, moves the cursor to the last id, never back, and asks again unless the log is exhausted. |
| ClusterEventPoll.Consumer.Walk | apps/server/src/clusterEvents.ts:330-367 | The loop with its flushes computes the coalesced delivery of the rows. |
| ClusterEventPoll.NotedExact | apps/server/src/clusterEvents.ts:351-361 | Noting a hint keeps one hint per room, at the highest version seen. |
| ClusterEventPoll.CoalescedExact | apps/server/src/clusterEvents.ts:345-361 | A run leaves exactly one sync per room it names, at the highest version it names for that room. |
| ClusterEventPoll.MaximalRun | apps/server/src/clusterEvents.ts:335-367 | Each maximal run is flushed right before the event that ends it; other events keep place and order and are handled once. |
| ClusterEventPoll.CoalescedObserved | apps/server/src/clusterEvents.ts:349-360 | Coalescing one run is invisible to the gateway. |
| ClusterEventPoll.PollRefinesOneByOne | apps/server/src/clusterEvents.ts:330-367 | At every event that is no refresh hint and at the end a gateway has been shown exactly what handling the events one by one would have shown: presence, spectators, deletions and everything that is no room event as they are, with the versions shown when they arrive; the other seven room kinds raise the version shown. |
| ClusterEventPoll.BatchIsTheNextRows | apps/server/src/clusterEvents.ts:325-329 | A batch holds exactly the rows between the old and the new cursor. |
| ClusterEventPoll.BatchesCoverTheLog | apps/server/src/clusterEvents.ts:325-329 | Progress of one poll: while rows lie beyond the cursor the batch is not empty, and it is what the remaining log starts with. |
| ClusterEventPoll.ReadIffTimely | apps/server/src/clusterEvents.ts:324-369 | In any run of polls, appearances anywhere in the id order and sweeps, rows are read once and in id order, and once caught up a row has been read iff it became visible beyond the cursor and was not swept unread. |
| ClusterEventPoll.ReadsTheLog | apps/server/src/clusterEvents.ts:324-369 | If ids become visible in order, the rows read are at every moment the log itself from the start cursor up to the current one. |
| ClusterEventPoll.ARowIsMissed | apps/server/src/clusterEvents.ts:325-339 | A concrete run that catches up without ever reading a visible row: id 2 is polled, then id 1 appears. |
| ClusterEventPoll.LateRowIsNeverPolled | apps/server/src/clusterEvents.ts:325-339 | A row at or behind the cursor is in no batch taken there. |
| ClusterEventPoll.StoredEvents | apps/server/src/clusterEvents.ts:331-347 | A poll decodes stored well-formed events to those events, all of them, in order. |
| ClusterEventPoll.StoredEventsAreShown | apps/server/src/clusterEvents.ts:324-369 | For any list of stored well-formed events, what a poll hands on shows a gateway what handling those events one by one would show. |
| ClusterEventPoll.OthersAreHandledInOrder | apps/server/src/clusterEvents.ts:345-367 | What a poll hands on is syncs and the events that are no refresh hints, exactly those, in their order. |
| VersionGate.RoomVersionGate.Accept | apps/client/src/versionGate.ts:16-25 | A message passes iff it is newer, or a new kind at the newest version; the gate's state after it. |
| VersionGate.PassedInOrderOnce | apps/client/src/versionGate.ts:1-25 | Whatever arrives, what passes never goes back in version and no kind passes twice at one version. |
| VersionGate.FirstNewestPasses | apps/client/src/versionGate.ts:16-25 | A message that is news by everything before it always passes. |
| RoomCommands.SameInstanceIdsIsEquality | apps/client/src/store.ts:637-641 | Comparing lengths and one inclusion is set equality for lists without repeats. |
| RoomCommands.Pipeline.MergedDefenderStageIds | apps/client/src/store.ts:653-670 | The click's additions and removals against the presented set are applied to the set the pipeline heads for. |
| RoomCommands.Pipeline.SendVersionedRoomCommand | apps/client/src/store.ts:672-690 | A gated command goes out only when none is in flight and the socket takes it, and is then the one in flight. |
| RoomCommands.Pipeline.QueueOrSendDefenderStage | apps/client/src/store.ts:692-713 | A click is queued behind a command in flight, dropped as redundant, or sent. |
| RoomCommands.Pipeline.AcceptRoomCommandState | apps/client/src/store.ts:718-746 | A newer state acknowledges, and the queued set is flushed only if it is still stageable and differs. |
| RoomCommands.Pipeline.OnState | apps/client/src/store.ts:1081-1158 | The state case: gate, acknowledge, install, flush. |
| RoomCommands.Pipeline.ResetRoomCommandPipeline | apps/client/src/store.ts:264-279 | A reset clears the pipeline and what it shows. |
| RoomCommands.RunSound | apps/client/src/store.ts:637-746 | In any interleaving of clicks, commands, messages and resets at most one gated command sent since the last reset is unanswered and a queued or in-flight set is the shown set. |
| RoomCommands.LastClickWins | apps/client/src/store.ts:650-713 | In every reachable state a click, merged as a delta, makes the pipeline head for and show exactly the clicked set. |
| RoomCommands.ClickSends | apps/client/src/store.ts:692-713 | A click shows the clicked set, and sends exactly one command at the gate's version when none is in flight. |
| RoomCommands.GatedGoesOut | apps/client/src/store.ts:672-690 | Any other gated command goes out at the gate's version exactly when none is in flight and the socket is open, and changes nothing but what is in flight, pending and sent. |
| RoomCommands.SentAtNewest | apps/client/src/store.ts:630-635 | In every run every command sent, staging or not, by a click, a command or a flush, carries the newest version the gate had accepted at that moment, and no happening sends two. |
| RoomCommands.UpdateReceived | apps/client/src/store.ts:718-746 | What an update leaves in flight, shown and sent: the queued set goes out at the new version iff it is stageable and not yet staged. |
| RoomCommands.StepConsistent | apps/client/src/store.ts:672-746 | Clicks, other gated commands, commits of this seat's commands at their expected version only, commits by anybody else, refusals, announcements for some or all commits, deliveries from a wire of any length, errors about something else, reconnects and other messages all keep browser, wire and room consistent. |
| RoomCommands.KeptUnlessUnstageable | apps/client/src/store.ts:733-745 | Without refusals, errors during a command in flight and reconnects only an update that makes the set asked for unstageable makes the browser give it up. |
| RoomCommands.QuietMeansAsRequested | apps/client/src/store.ts:637-746 | In every run, whenever the wire is quiet nothing is in flight, the browser shows the authoritative set, and that is the last set asked for (clicked, or left by another command of the seat) unless the browser gave it up. |
| RoomCommands.LastSetArrives | apps/client/src/store.ts:637-746 | If the server applies every stage it takes, no reconnect and no error during a command in flight intervenes, and the last clicked set stays stageable, then whatever was clicked before and whoever else commits, the authoritative set is the last clicked one once the wire is quiet. |
| RoomCommands.QuietIsReached | apps/client/src/store.ts:718-746 | Until quiet some server answer, announcement or delivery is possible, a command at the right version can be applied, and each such step brings quiet closer; other messages and errors never put it off. |
| ReplayNotes.PageAfterPrefix | apps/server/src/replays.ts:274-281 | The page after a prefix of frames is the next frames in order. |
| ReplayNotes.AppendRows | apps/server/src/replays.ts:285-313 | A page extends the built frames until the first view that does not decode. |
| ReplayNotes.ReplayFiles | apps/server/src/replays.ts:263-317 | Paged reading succeeds iff there are at most the maximum of frames and every view decodes, and then holds every frame once, in order, with its view, transition and room version. |
| ReplayNotes.Replay.Append | apps/server/src/replays.ts:116-181 | A frame is stored iff it projects, the replay records and the version is new; game over moves it to finalizing; a projection that throws discards the recording with its frames and notes. |
| ReplayNotes.Replay.PruneFrom | apps/server/src/replays.ts:186-210 | Frames and notes from a version on go together. |
| ReplayNotes.Replay.End | apps/server/src/replays.ts:216-235 | Only a recording ends, with frames and notes untouched. |
| ReplayNotes.Replay.SaveNote | apps/server/src/replays.ts:899-954 | A note is saved iff its frame exists (or its index is in range when ready), replaces or deletes that note, and changes no other and nothing another participant owns. |
| ReplayNotes.SaveMeans | apps/server/src/replays.ts:899-954 | A note may be saved under a key iff its text is within 2000 characters and the key is the index of a frame of a ready replay, or the room version of a stored frame of an unfinished one. |
| ReplayNotes.Replay.ReadForFinalization | apps/server/src/replays.ts:396-401 | The read succeeds iff finalizing, non-empty, decodable and the last winner matches. |
| ReplayNotes.Replay.CommitFinalization | apps/server/src/replays.ts:405-452 | Committing, even after notes were saved since the read or another finalization committed, loses no note and changes nothing a participant reads. |
| ReplayNotes.PrunedNotes | apps/server/src/replays.ts:191-208 | After an undo every remaining note is on a remaining frame. |
| ReplayNotes.InsertedFrame | apps/server/src/replays.ts:153-162 | A new frame keeps the order and every note's frame. |
| ReplayNotes.OrderKept | apps/server/src/replays.ts:864-869 | Re-keying keeps the order of two notes. |
| ReplayNotes.NothingChangesForReaders | apps/server/src/replays.ts:405-452 | The ordered list of frame and text read in one snapshot before re-keying is the one read in one snapshot after it. |
| ReplayReads.ReadApart | apps/server/src/replays.ts:863-896 | For any run of appends, prunes, ends, finalizations, removals and other participants' saves between the notes query and the frames query: the answer is a snapshot of the run, and then the first or the last one, iff the replay was not finalized in between with a note of the reader left; otherwise it is empty. |
| ReplayReads.LiveAnswer | apps/server/src/replays.ts:863-896 | While the replay is live at the second query the answer is exactly the later snapshot. |
| ReplayReads.PrunedBetweenReads | apps/server/src/replays.ts:186-210 | Old notes listed against the frames a prune leaves are the notes it leaves, listed against those frames. |
| ReplayReads.FirstMomentsAnswer | apps/server/src/replays.ts:863-896 | The answer is the first moment's iff each of the reader's notes has the same frame index at both moments. |
| ReplayReads.FinalizedBetweenReads | apps/server/src/replays.ts:863-896 | Against no frames a live replay's notes give an empty answer, the first moment's iff the reader had no note then. |
| ReplayReads.AnEmptiedAnswer | apps/server/src/replays.ts:863-896 | A concrete run whose answer is empty although both snapshots hold the reader's note. |
| ReplayNotes.RekeyedUnique | apps/server/src/replays.ts:428-450 | Re-keying keeps one note per key and discards none whose frame exists. |
| ReplayRetention.ReplayTables.SetReplayFavorite | apps/server/src/replays.ts:973-1021 | Updated with the flag leaves the copy there and favourited; updated without it leaves the copy unfavourited if unexpired and gone if expired, the game with its last copy; the cap and a copy that cannot be found change nothing. |
| ReplayRetention.SetFavoriteMeans | apps/server/src/replays.ts:973-1021 | The same with the exact condition of each answer and every other copy and game untouched. |
| ReplayRetention.ReplayTables.DeleteReplay | apps/server/src/replays.ts:1026-1053 | Only the caller's copy of a ready replay goes, and the game iff no copy is left; all else is untouched. |
| ReplayRetention.ReplayTables.SweepExpiredReplay | apps/server/src/replays.ts:1072-1092 | The expiry is read again under the lock before unfavourited copies go. |
| ReplayRetention.StepValid | apps/server/src/replays.ts:973-1120 | Every step of every gateway keeps: favourite implies ready, favourites within the cap, and collected ids still collectable. |
| ReplayRetention.StatusMovesForward | apps/server/src/replays.ts:171-235 | Status only moves recording, finalizing, ready, one step at a time. |
| ReplayRetention.RetainedByStep | apps/server/src/replays.ts:1055-1120 | No sweep and no step of another account removes or changes a favourited or unexpired ready copy. |
| ReplayRetention.RetainedForever | apps/server/src/replays.ts:973-1120 | The same over whole runs in any order. |
| ReplayRetention.FavoriteStaysForever | apps/server/src/replays.ts:1055-1120 | A favourited copy survives every run without a step of its own account, whatever the sweeps' clocks. |
| ReplayRetention.FavoritedForGood | apps/server/src/replays.ts:973-1120 | An account below the cap that asks for its copy to be favourited has that copy, favourited, after every later run without a step of its own. |
| ReplayRetention.SweepRemovesTheRest | apps/server/src/replays.ts:1080-1090 | A sweep of an expired replay removes exactly the unfavourited copies, and the game iff no favourite is left. |
| ReplayFinalizer.Finalizer.Enqueue | apps/server/src/replays.ts:526-531 | A new id is queued once; a known id or a stopped queue changes nothing. |
| ReplayFinalizer.Finalizer.RunMaintenance | apps/server/src/replays.ts:533-541 | A job is queued unless stopped. |
| ReplayFinalizer.Finalizer.WaitForIdle | apps/server/src/replays.ts:556-559 | A caller waits iff the drain runs or work is pending. |
| ReplayFinalizer.WaitMeans | apps/server/src/replays.ts:556-559 | A caller is kept waiting exactly while the drain runs or work is pending, and nothing else changes. |
| ReplayFinalizer.Finalizer.Stop | apps/server/src/replays.ts:561-569 | Stopping refuses the pending jobs and clears the queue. |
| ReplayFinalizer.Finalizer.Finish | apps/server/src/replays.ts:613-617 | The drain's end releases the waiters and restarts if work arrived. |
| ReplayFinalizer.Finalizer.Continue | apps/server/src/replays.ts:579-581 | The loop takes the oldest pending work or ends. |
| ReplayFinalizer.Finalizer.OnCapacity | apps/server/src/replays.ts:581-583 | Stopped while waiting ends the drain, otherwise the work starts. |
| ReplayFinalizer.Finalizer.OnCapacityFailure | apps/server/src/replays.ts:580-617 | A wait that throws ends the drain through its `finally`, with the work still in hand. |
| ReplayFinalizer.Finalizer.OnWorkOver | apps/server/src/replays.ts:583-611 | A finished or skipped replay leaves `queued`. |
| ReplayFinalizer.YieldsBetweenReplays | apps/server/src/replays.ts:579-612 | After a replay the drain yields to the event loop if more is pending, unless the replay was skipped; otherwise it takes the oldest pending work or rests. |
| ReplayFinalizer.TurnSound | apps/server/src/replays.ts:513-632 | Every turn but a wait that throws with a replay in hand keeps this: before stop, `queued` is the replays pending plus the one in hand, none pending twice, and pending work has a drain. |
| ReplayFinalizer.RunSound | apps/server/src/replays.ts:513-632 | The same for every run from the empty queue in which no such throw happens. |
| ReplayFinalizer.CapacityFailureSound | apps/server/src/replays.ts:580-626 | A throwing wait keeps the queue sound iff the queue is stopped or the work in hand is no replay. |
| ReplayFinalizer.StrandedForGood | apps/server/src/replays.ts:526-626 | Otherwise, in every later run without a stop, the id stays in `queued`, is neither pending nor in hand, and asking for it changes nothing. |
| ReplayFinalizer.AStrandedReplay | apps/server/src/replays.ts:526-626 | A concrete run: enqueue, throwing wait, enqueue again; the drain rests, nothing is pending, and the id is still in `queued`. |
| ReplayFinalizer.FirstInFirstOut | apps/server/src/replays.ts:526-581 | In every run, throwing waits included, work taken followed by work pending is the work accepted, in that order, until a stop. |
| ReplayFinalizer.ReleasedOnlyWhenIdle | apps/server/src/replays.ts:556-631 | Idle waiters are released all together and only when nothing is pending, except by a wait that throws, which leaves the pending work as it is. |
| ReplayFinalizer.DrainsToRest | apps/server/src/replays.ts:577-618 | Until rest a drain turn is possible and each brings rest closer; at rest nothing is pending and nobody waits. |
| MatchRecords.MatchTables.RecordMatch | apps/server/src/matches.ts:107-174 | A repeated game writes nothing and a refused insert rolls back; otherwise the game is written as reported. |
| MatchRecords.RecordingMeans | apps/server/src/matches.ts:107-174 | A recorded game appends exactly one row, which shows the reported winner, end, times, format, mode and seats; each human seat's hero record gains one game and one win iff it won, one loss iff the other seat did, else a draw or an ended game, its matchup likewise for games with a result, and no other key moves; the answers repeated and refused have their exact conditions and change nothing. |
| MatchRecords.MatchTables.CountSeat | apps/server/src/matches.ts:145-172 | One seat's upserts add one to the result's column and no other, with no matchup for games without a result. |
| MatchRecords.MatchTables.DeleteAccount | apps/server/src/matches.ts:330-342 | Detach, delete with its counters, sweep. |
| MatchRecords.RunConsistent | apps/server/src/matches.ts:107-174 | After any run of recordings, deletions, sweeps and registrations every surviving counter equals the count over the rows, and exists iff it is positive. |
| MatchRecords.RecordingConsistent | apps/server/src/matches.ts:115-173 | Recording keeps every counter equal to the count. |
| MatchRecords.DeletingConsistent | apps/server/src/matches.ts:330-342 | Deletion keeps every surviving counter equal to the count. |
| MatchRecords.OneRowPerGame | apps/server/src/matches.ts:115-118 | However often a game is recorded it has one row, and ids stay unique. |
| MatchRecords.TallyAddsUp | apps/server/src/matches.ts:152-161 | Games = wins + losses + draws + ended, and last played is the maximum finish time counted. |
| MatchRecords.MatchupTallyAddsUp | apps/server/src/matches.ts:163-171 | Matchup games = wins + losses + draws. |
| MatchRecords.ColumnsMean | apps/server/src/matches.ts:44-48 | Each hero column is the number of counted seats that won, that lost, that drew, or whose game ended without a result. |
| MatchRecords.MatchupColumnsMean | apps/server/src/matches.ts:162-171 | Each matchup column is that number among games with a result. |
| MatchRecords.StoredRecordsAddUp | apps/server/src/matches.ts:107-174 | The stored counters add up after every run from empty tables. |
| MatchRecords.DeletionForgets | apps/server/src/matches.ts:330-342 | No row names the account any more, the opponents' rows keep game and result, and exactly the matches nobody can see go. |
| MatchRecords.DeletionMeans | apps/server/src/matches.ts:330-342 | What a deletion leaves is one row for each match somebody else can see, without the account's id and names and otherwise the same; its counters go and all other counters stay. |
| MatchHistory.CursorRoundTrip | apps/server/src/matches.ts:220-231 | The printed cursor parses back to itself iff the key is storable, and is malformed otherwise. |
| MatchHistory.CursorsAccepted | apps/server/src/matches.ts:220-231 | Accepted are one to sixteen digits of a safe integer, a dot and an id, read as that key. |
| MatchHistory.ListMatches | apps/server/src/matches.ts:240-328 | One page is the first rows after the cursor, with a next cursor iff more remain. |
| MatchHistory.PageSizes | apps/server/src/matches.ts:246-246 | 50 without a limit, otherwise the size from 1 to 10000 nearest to the limit. |
| MatchHistory.PageMeans | apps/server/src/matches.ts:286-327 | A page is the first rows, as many as the limit allows, and its cursor names its last row iff more remain. |
| MatchHistory.OlderMeans | apps/server/src/matches.ts:264-284 | Older is an earlier finish, or the same finish and an id that comes first in the alphabet. |
| MatchHistory.HistoryIsComplete | apps/server/src/matches.ts:251-287 | The history holds exactly the rows the filters ask for, each once, newest first. |
| MatchHistory.CursorCutsHistory | apps/server/src/matches.ts:262-267 | Querying with a cursor is cutting the whole history at its key. |
| MatchHistory.NextRequest | apps/server/src/matches.ts:323-327 | The next cursor is accepted and leaves strictly fewer rows, those older than the page's last. |
| MatchHistory.WalkVisitsAll | apps/server/src/matches.ts:240-328 | Without equal keys, walking from any cursor gives all remaining rows in order, for every page size. |
| MatchHistory.StrictUnlessSelfMatch | apps/server/src/matches.ts:276-284 | Two rows share a key iff one account holds both seats of one selected match. |
| MatchHistory.PagesAreTheHistory | apps/server/src/matches.ts:240-328 | The pages concatenate to the history for every page size iff there is no such match; the server never has one, as MatchGames shows. |
| MatchGames.InsertParticipants | apps/server/src/replays.ts:101-108 | A game's participant rows are accepted by their primary key iff its two seats hold different accounts. |
| MatchGames.JoiningKeepsSeatsApart | apps/server/src/store.ts:3161-3188 | Joining never puts one account into both seats and never moves another account; an account that holds a seat keeps it, any other gets a free one, the first of two, or in a league room its own if that is free. |
| MatchGames.RunKeepsInv | apps/server/src/db.ts:212-219 | In every run of game starts, records, deletions, sweeps and registrations no match row has one account at both seats, and every row's cursor can be printed. |
| MatchGames.GamesAre | apps/server/src/replays.ts:101-108 | After any run the games under way are exactly those that started with two different accounts, with those accounts. |
| MatchGames.FinishedGamesAreThere | apps/server/src/matches.ts:107-174 | After any run a game that ends for the first time between accounts that still exist is in the table as it was reported. |
| MatchGames.EveryHistoryPages | apps/server/src/matches.ts:240-328 | In every table the server can reach, for every account, filter and page size, the pages concatenate to the complete history. |
| Leases.LeaseTable.TryAcquireLease | apps/server/src/leases.ts:7-41 | Alone, a call succeeds iff there is no row, it is the caller's, or it has expired, and writes exactly then. |
| Leases.LeaseTable.Update | apps/server/src/leases.ts:20-25 | The conditional update. |
| Leases.LeaseTable.Insert | apps/server/src/leases.ts:31-40 | A lost insert race is a refusal that changes nothing. |
| Leases.LeaseTable.ReleaseLease | apps/server/src/leases.ts:43-45 | Only the owner's row goes. |
| Leases.UndisturbedCall | apps/server/src/leases.ts:7-41 | A call whose statements nothing disturbs is granted iff the name is free for the caller, and the lease then runs for its duration from the caller's clock. |
| Leases.ReleaseMeans | apps/server/src/leases.ts:43-45 | A release gives back the caller's own lease of that name and nothing else. |
| Leases.RowIsLastAcquirer | apps/server/src/leases.ts:7-45 | In every interleaving of statements the row of every name is the lease last granted and not given back, and every grant was allowed by the holder before it. |
| Leases.AnswersAreTrue | apps/server/src/leases.ts:7-41 | In every interleaving a call that was told yes has its grant among the events. |
| Leases.HolderIsLastEvent | apps/server/src/leases.ts:7-45 | The holder is the last successful acquirer, unless it released. |
| Leases.HandOver | apps/server/src/leases.ts:7-45 | Between one owner's success and another's there is a release by the first, or a taker whose clock had reached the expiry the first last wrote. |
| Leases.TakeoverOnlyAfterExpiry | apps/server/src/leases.ts:20-25 | A direct takeover happens at or after the expiry written by the previous owner. |
| Leases.RenewalMayShorten | apps/server/src/leases.ts:20-24 | A concrete renewal that moves the expiry back. |
| RulesetFence.Fence.EnsureActive | apps/server/src/rulesetFence.ts:23-50 | Accepted iff the fence or the stored rooms agree; a refusal leaves configuration and generation unchanged although it was written before the throw. |
| RulesetFence.Fence.Activate | apps/server/src/rulesetFence.ts:65-97 | Removes exactly the incompatible rooms and unfinished replays, and announces each removed room once at its next version. |
| RulesetFence.CheckMeans | apps/server/src/rulesetFence.ts:52-61 | Creation is let in without an active ruleset or under the active one; a refusal names both, and an active name that cannot be decoded refuses everybody. |
| RulesetFence.EnsureMeans | apps/server/src/rulesetFence.ts:23-50 | When exactly a binary agrees with the fence or the stored rooms, and that only an agreed fence that was not yet set is written. |
| RulesetFence.ActivateMeans | apps/server/src/rulesetFence.ts:65-97 | A cutover keeps exactly the rooms of the new ruleset, its replays and every ready replay, as they are. |
| RulesetFence.StepFences | apps/server/src/rulesetFence.ts:23-97 | Each step keeps the fence, the generation never falls, and the active ruleset changes only with the generation and with no creation open. |
| RulesetFence.RunFences | apps/server/src/rulesetFence.ts:23-97 | In every interleaving of check, insert, commit, ensure and activate, once a ruleset is active every stored room carries it. |
| RulesetFence.CreationSeesOneRuleset | apps/server/src/rulesetFence.ts:52-61 | No cutover fits between a creation's check and its commit. |
| RulesetFence.CutoverAdmits | apps/server/src/rulesetFence.ts:13-19 | After a cutover exactly the new ruleset is admitted, and nobody if its name is too long to decode. |
| RulesetFence.ACutoverAdmitsNobody | apps/server/src/rulesetFence.ts:13-19 | A concrete cutover, to a name of 161 letters, after which every request is refused. |
| KdfSlots.Limit | apps/server/src/auth.ts:19-22 | The configured limit is one or two, two only if asked for. |
| KdfSlots.KdfQueue.Acquire | apps/server/src/auth.ts:33-40 | Take a free slot or join the queue. |
| KdfSlots.KdfQueue.Release | apps/server/src/auth.ts:46-50 | Hand the slot to the first waiter or free it. |
| KdfSlots.RunKeepsInv | apps/server/src/auth.ts:30-51 | In every interleaving, failures included: the counter is slots held or handed over and within the limit, waiting implies all slots taken, and slots go out in order of arrival. |
| KdfSlots.Drains | apps/server/src/auth.ts:42-51 | Without arrivals exactly the outstanding steps can happen, and then the counter is zero and everyone has finished. |
| RateLimits.BucketTable.Allow | apps/server/src/rateLimits.ts:19-36 | The call counts itself and is allowed iff the stored count was below the maximum. |
| RateLimits.BucketTable.Sweep | apps/server/src/rateLimits.ts:48-51 | Exactly the expired counters go. |
| RateLimits.SweepMeans | apps/server/src/rateLimits.ts:48-51 | A counter is left iff its window has not ended, and is left as it is. |
| RateLimits.NamespacesDoNotMix | apps/server/src/rateLimits.ts:22-24 | Limiters of different namespaces never share a counter, whatever the keys contain. |
| RateLimits.CountersApart | apps/server/src/rateLimits.ts:22-24 | Two calls share a counter iff namespace, key and endpoint are equal, for keys without the separator. |
| RateLimits.RunKeepsInv | apps/server/src/rateLimits.ts:19-51 | In every run no window exceeds the maximum and open windows agree with their counters. |
| RateLimits.LimiterIsExact | apps/server/src/rateLimits.ts:19-36 | A call is let through iff fewer than the maximum were let through in its window, sweeps or not. |
| RateLimits.BoundedInEveryInterval | apps/server/src/rateLimits.ts:19-51 | At most max per window and at most 2·max in any interval as long as a window. |
| RateLimits.TwiceIsReached | apps/server/src/rateLimits.ts:21-31 | The factor two is attained. |
| PassUntil.LayerKeyIdentifies | apps/server/src/passUntil.ts:70-75 | Stack keys are equal iff source, card and ability are. |
| PassUntil.LinkKeyIdentifies | apps/server/src/passUntil.ts:76-78 | Link keys are equal iff place and attack are, and never equal a stack key. |
| PassUntil.RefreshIsIdempotent | apps/server/src/passUntil.ts:92-104 | Observing one state twice is observing it once. |
| PassUntil.OpponentLatchLives | apps/server/src/passUntil.ts:92-98 | An opponent latch lives iff no observation showed a new play, the game's end or a later own turn, and it remembers the plays last seen. |
| PassUntil.OpponentLatchMeans | apps/server/src/passUntil.ts:70-98 | An opponent latch is armed after any observations iff in each the game goes on, it is no later turn of the seat, every other seat's card or activated ability on the stack was there in the state before with the same source, card and ability number, and every unresolved link of another attacker was there, unresolved, with the same attack at the same place. |
| PassUntil.NothingNewWhileArmed | apps/server/src/passUntil.ts:88-98 | Every opposing play visible now was visible in every earlier observation since arming, and no later own turn was reached. |
| PassUntil.TurnLatchLives | apps/server/src/passUntil.ts:93-100 | A turn latch lives exactly as long as its turn and the game. |
| PassUntil.ChainLinkLatchLives | apps/server/src/passUntil.ts:99-103 | A chain-link latch binds to the first open link and lives exactly while that link stays the open one. |
| PassUntil.OpenLinkMeans | apps/server/src/passUntil.ts:82-86 | The open link is the last of the chain while it is unresolved. |
| PassUntil.StoredRoundTrip | apps/server/src/passUntil.ts:32-59 | A latch reads back as itself iff within bounds, and nothing but a latch's stored form is accepted. |
| PassUntil.ArmedLatchStores | apps/server/src/passUntil.ts:61-80 | Every armed latch survives storage unless more than 256 plays are open. |
| Achievements.TrailedAfterFullRound | apps/server/src/achievements.ts:27-44 | True iff fifteen behind and both seats completed a numbered turn. |
| Achievements.AchievementsForSeat | apps/server/src/achievements.ts:47-97 | Lists exactly the earned achievements. |
| Achievements.AwardsAre | apps/server/src/achievements.ts:47-97 | What each of the sixteen awards takes, said of the raw state; only a finished legal game and a human seat with an account earn any. |
| Achievements.OpenChecks | apps/server/src/achievements.ts:121-148 | The checks left open are exactly those not yet unlocked that the final state does not decide and some history could. |
| Achievements.AchievementTable.AwardAchievements | apps/server/src/achievements.ts:101-148 | Adds exactly the final-state awards, keeps old unlocks, and leaves open exactly the undecided history checks. |
| Achievements.AchievementTable.AwardHistoryAchievements | apps/server/src/achievements.ts:151-179 | Adds exactly the deferred checks that the frames show. |
| Achievements.HistoryAdds | apps/server/src/achievements.ts:86-94 | The history adds an award exactly when its check was left open and the frames show it. |
| Achievements.TwoPhasesAreOne | apps/server/src/achievements.ts:99-179 | Both phases together unlock what one evaluation with the whole history would, for every frame list and prior unlocks, whatever other games unlock in between. |
| DecklistText.ParseDecklistText | apps/server/src/decks.ts:76-121 | The loop computes the parse of the text, line by line with the section carried along. |
| DecklistForms.HeaderWithText | apps/server/src/decks.ts:92-104 | A word, a colon and text is one card under the section the word names, or nothing for other words. |
| DecklistForms.HeaderAlone | apps/server/src/decks.ts:92-102 | A word and a colon set the section the word names, or change nothing. |
| DecklistForms.WithoutX | apps/server/src/decks.ts:105-118 | A quantity, a space and a name is a card line with the clamped quantity. |
| DecklistForms.CapitalX | apps/server/src/decks.ts:105-118 | So is a quantity with either case of x. |
| DecklistForms.ColourAfterName | apps/server/src/decks.ts:105-114 | A colour word in parentheses after a name is its pitch. |
| PrintedDecklist.DigitLine | apps/server/src/decks.ts:81-110 | A line starting with a digit is a card line or a bare name, never a header or a comment. |
| PrintedDecklist.SplitPrinted | apps/server/src/decks.ts:105-114 | A printed pitch is split off iff it is one of the four. |
| PrintedDecklist.PrintedLine | apps/server/src/decks.ts:105-118 | What the parser makes of a printed line, for every name. |
| PrintedDecklist.LineRoundTrip | apps/server/src/fabrary.ts:113-129 | A printed card line reads back as quantity, name, pitch and section iff the card is well formed. |
| PrintedDecklist.ANameReadAsPitch | apps/server/src/decks.ts:105-114 | A concrete card, `A (2)` without a pitch, that does not read back. |
| Fabrary.PrintCards | apps/server/src/fabrary.ts:185-200 | The loop prints every non-zero quantity in order, or refuses at the first malformed card. |
| Fabrary.NormalizedMeans | apps/server/src/fabrary.ts:117-117 | A normalized identifier is in normal form and keeps every letter, in lower case. |
| Fabrary.ResolvedMeans | apps/server/src/fabrary.ts:94-129 | An identifier with a colour is printed as the catalogue's card of it, else as the catalogue's unpitched card without the colour, else as its words and its colour. |
| Fabrary.DecodeFabraryDeck | apps/server/src/fabrary.ts:175-214 | The text of a valid, non-empty deck, and nothing otherwise. |
| Fabrary.DecodedMeans | apps/server/src/fabrary.ts:175-201 | A response is printed iff its matchups decode, its name is not blank and within 256 characters, and it holds at most 256 cards, each identified and counted within bounds, one of them more than zero times. |
| Fabrary.ParseJoined | apps/server/src/decks.ts:79-80 | Joining lines and splitting the text again parses as the lines' own segments. |
| Fabrary.NameLines | apps/server/src/fabrary.ts:208-208 | The printed name reads as no entry iff its first line, trimmed, has no other line terminator and each later line is blank, a comment, a section name, a header without an entry or an advertisement. |
| Fabrary.NameLine | apps/server/src/fabrary.ts:208-208 | For a name without a line feed that is: it has no line terminator at all. |
| Fabrary.ANameThatPrintsAnEntry | apps/server/src/fabrary.ts:208-208 | A concrete name, `A` and `1` on two lines, with which no deck reads back. |
| Fabrary.CardsRoundTrip | apps/server/src/fabrary.ts:198-211 | A list of printed cards reads back iff all are well formed, and never as fewer entries. |
| Fabrary.TextRoundTrip | apps/server/src/fabrary.ts:203-213 | The whole text reads back as every main and sideboard entry in order iff the name's lines are silent (a condition on their text) and all cards are well formed. |
| Fabrary.DecodedRoundTrip | apps/server/src/fabrary.ts:175-214 | The same from the decoded response. |
| Fabrary.PrintedQuantities | apps/server/src/fabrary.ts:89-94 | Printed quantities are positive and within the parser's clamp. |
| DeckPools.ValidateDeck | apps/server/src/decks.ts:154-265 | The loop accepts exactly the acceptable drafts and returns their pool; a refusal names a reason. |
| DeckPools.AcceptedIffLegal | apps/server/src/decks.ts:168-252 | Accepted iff every line is registrable, there is one hero, copies and sizes are within the format's limits. |
| DeckPools.AcceptedMeans | apps/server/src/decks.ts:154-252 | Said of the lines alone: accepted iff every line's card has a place, exactly one copy of one line names a hero, no card exceeds the format's copies over all lines that name it, and the copies for the deck and for the whole pool are within the format's sizes. |
| DeckPools.PoolIsTheDecklist | apps/server/src/decks.ts:168-227 | An accepted pool registers every copy of every line but the hero's, once. |
| DeckPools.PoolMeans | apps/server/src/decks.ts:168-263 | Each part of an accepted pool holds exactly the copies of the lines that belong there, in the order of the lines, and the hero is the one a line names. |
| DeckPools.SiftOut | apps/server/src/decks.ts:325-335 | The filter that pushes what it drops keeps both parts in order. |
| DeckPools.DecodePool | apps/server/src/decks.ts:297-339 | A stored pool within bounds reads back repaired, any other is corrupt. |
| DeckPools.StorableMeans | apps/server/src/decks.ts:272-316 | A stored pool is within bounds iff none of its lists has more than 100 ids and no id it mentions is empty or longer than 256. |
| DeckPools.RepairFacts | apps/server/src/decks.ts:320-339 | The repair keeps every card, leaves weapon-zone cards only among weapons, changes a pool iff one was elsewhere, and is idempotent. |
| DeckPools.AcceptedPoolReadsBack | apps/server/src/decks.ts:297-339 | What import accepts, storage reads back unchanged. |
| DrawOdds.ProbabilityAtLeastOne | packages/bot/src/deck-knowledge.ts:123-131 | The loop's result is in [0, 1] and is 1 − C(N−K, n)/C(N, n) for all 0 ≤ K ≤ N and 0 ≤ n ≤ N. |
| DrawOdds.OddsAreHypergeometric | packages/bot/src/deck-knowledge.ts:121-131 | The product form equals the binomial quotient. |
| DrawOdds.OddsAreMonotone | packages/bot/src/deck-knowledge.ts:123-131 | For all integers the odds never fall as successes or draws grow. |
| DrawOdds.CountIds | packages/bot/src/deck-knowledge.ts:49-53 | The counts are the multiset of the list. |
| DrawOdds.UnseenCounts | packages/bot/src/deck-knowledge.ts:83-101 | The counts are the list minus the distinct physical cards placed, never below zero. |
| DrawOdds.UnseenIsHidden | packages/bot/src/deck-knowledge.ts:78-101 | If the list is the hidden cards plus the deck cards placed, the unseen counts are the hidden cards. |
| DrawOdds.AverageOver | packages/bot/src/deck-knowledge.ts:110-119 | The mean of the cards counted one by one, and none for no cards. |

## Left out

- HTTP and WebSocket plumbing, email, fetching, the React UI and analytics: no state of their own worth a proof.
- The rules engine, projections, legal intents and card data: abstract parameters of the models.
- scrypt, SHA-256, gzip and token randomness: not modelled; hashes are the hashed text.
- `passUntilIntent` and the lethal check: a selection over the engine's legal intents.
- Bot policy weights: tuned constants without a specification.
- ClusterEvents.DecodeEncode: JSON strings that `Number` would convert (`"12"`) in payload integers are not modelled, because no stored form holds one.
- ClusterEventPoll.Consumer.Poll: handlers that throw and the timer are outside the claim.
- RoomCommands.QuietMeansAsRequested: a decision that ends, errors that leave the room, and the replay screen are outside the runs of the whole system; RunSound covers them for the client's own variables.
- RoomCommands.Pipeline.MergedDefenderStageIds: staged ids are sets, the order of ids inside a message is not modelled.
- ReplayNotes.Replay.SaveNote: the text is the trimmed text, and the participant's right to see the replay is assumed.
- ReplayReads.ReadApart: the reader's own saves between the two queries are outside the runs, and a replay removed before the lookup of its row is answered as not found, not as an empty list.
- ReplayRetention.RetainedForever: a sweep's batch limits and the order of its ids are not modelled; any subset in any order is allowed instead.
- ReplayFinalizer.RunSound: runs in which a capacity wait throws with a replay in hand are treated by StrandedForGood instead; a maintenance job taken off the queue just before a stop is never settled, so no claim says that every job settles.
- MatchHistory.ListMatches: replay availability of a row and the decoding of column values are not modelled; ids are ordered by character code where the database uses its collation.
- RateLimits.CountersApart: for keys that hold the separator (a NUL) only namespaces are kept apart, which is NamespacesDoNotMix.
- RateLimits.RunKeepsInv: `reset`, which empties the table, is outside the runs.
- RulesetFence.Fence.EnsureActive: a missing configuration row is not modelled, since the migration inserts it.
- RulesetFence.RunFences: the manual room seeder for local databases reads the fence without a lock and is not part of this model.
- Achievements.TwoPhasesAreOne: an account deleted between the phases is outside the claim, since the replay then no longer lists it.
- Fabrary.DecodeFabraryDeck: the matchup decoder's verdict is a parameter, strings are sequences of characters rather than UTF-16 units, and lower-casing is modelled for ASCII letters.
- DeckPools.ValidateDeck: the wording of error messages and the order of the copy-limit errors are not modelled.
- DrawOdds.ProbabilityAtLeastOne: rounding of floating point is not modelled.
- Fetching a linked deck again before a game and saving it: a sequence of the modelled decoder, parser and validation around a network fetch and one row update. Card art is a cosmetic column of that row.

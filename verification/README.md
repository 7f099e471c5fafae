# Shape Rotator Matrix, modelled and proved

A Dafny model of the parts of this repository that keep state across messages, crashes and
restarts, with proofs of what they guarantee. `dafny verify dfyconfig.toml` checks all of it.

| file | models |
|---|---|
| `RelayModel` | the Telegram/Matrix relay as a step machine: both loops interleaved at their awaits, both logs, memory, the two files, failed sends, crashes |
| `RelayTelegram`, `RelayForgets`, `RelayExactlyOnce` | Telegram to Matrix: how often something is sent, which stops make it be sent again, and exactly what is sent |
| `RelayMatrix`, `RelayBacklog` | Matrix to Telegram: at most once and in order; when the skipped backlog is forwarded after all |
| `RelayEcho`, `RelaySettles`, `RelayLimits` | both directions together, and how they come to rest; concrete runs where comments promise more than the code keeps |
| `RelayMeaning` | what a poll and a pass come to, stated on the logs, the answer and the outcomes alone |
| `RelayRing`, `RelayPasses` | the `State` and sync-store objects, and the passes over them, proved to be runs of the machine |
| `Vetting`, `Lobby`, `Onboarding`, `Approver` | the two room machines, the accounting of codes, welcome uses and accounts over whole runs, and the object whose handlers do those steps |
| `LobbyMeaning`, `LobbyRuns` | what a lobby room's syncs and sweeps come to, and what it goes through over a whole run |
| `Origins` | where the records of both kinds of rooms come from, what a handler leaves in the files, and revoked codes |
| `Announce`, `LobbyNotices` | operator notices and the sidecar record that stops them repeating; the same for the lobby file the handlers write |
| `Durability` | credentials, store, escrow and cached device, boot by boot |
| `Bundle` | the room-key bundle, from builder to receiver |
| `BulkRedact` | the early-stopping, deduplicating paged walk |
| `Sas` | the SAS responder, and its exchange with the honest initiator |
| `Prelude`, `Tally` | small shared vocabulary: slices, options, sums over dictionaries |

The source changes objects, dictionaries and files in place, so each core file also has a class
whose methods do the same step by step (`State`, `FileSyncStore`, `Relay`, `Approver`,
`Announcer`, `Bot`, `Responder`, `SasManager`, and `CollectTargets`, `BuildRoomKeyBundle` as
methods with loops). Every such method is proved equal to a specification function of the old
state, and the results below are proved about those functions over every input and every run.

Ids, codes and event ids are opaque: numbers (0 is the empty string) or strings that are only
compared. The homeserver and Telegram are append-only logs; a send succeeds or fails as a whole;
`State.save` (a rename) is one step, the sync cursor's plain write may be torn by a crash; the
clock is an input.

## What was found

- A failed Matrix-to-Telegram send is final (`RelayEcho.NeverRetried`): the event is already
  marked and the cursor already saved, so the retry promised at bridge/relay.py:322 does not happen.
- A kill can double-deliver to Matrix, against bridge/relay.py:122-123: the send comes before the
  save. `RelayLimits.PostedTwice` is a run that posts a message twice. It takes a stop between a
  post and its save: without one nothing is posted twice (`RelayForgets.NoKillNoRepeat`), each
  costs at most one repeat (`RelayForgets.RepeatsBounded`), and can cost it exactly when fewer
  than 200 newer messages are in the Telegram log by then (`RelayForgets.KillRepeatsIff`). Outside that moment everything posted is saved, exactly as long as
  no such stop has happened (`RelayForgets.SavedIff`); after one, two messages can be unsaved
  (`RelayLimits.TwoCanBeForgotten`, `RelayForgets.StaysOneIff`).
- If the first-start sync comes back without a `next_batch`, the skipped backlog is relayed
  (`RelayBacklog.BacklogCanLeak`); from any running relay without a cursor it can be
  (`RelayBacklog.BacklogLeaks`), and never otherwise (`RelayBacklog.NeverBacklog`). A later sync
  that brings events without a `next_batch` can make a crash forward them twice
  (`RelayBacklog.UncursoredRepeats`).
- A lobby room seen open while nobody was challenged has an announce record only if some other
  change made a cycle save; without one, its later failure is not announced
  (`Announce.FailureIff`, `Announce.UnrecordedFailureIsSilent`).
- From a cached device, sessions are lost when a boot that is about to throw the store away writes
  the escrow over from a store that an earlier import left half done, whether it then gets to the
  wipe or dies before it, and only then (`Durability.LosslessIff`,
  `Durability.HalfImportThenRotateLoses`).
- A boot that dies while it writes the escrow leaves a file no later import can read: until another
  export replaces it, no boot comes up (`Durability.SoundComesUp`).
- A notice is posted again when a send raises, or the process dies, after it and before the record
  is saved (`Announce.CutRepeats`).
- The device of an environment token is never cached. Pointing it at a new device works for one
  boot and the next does not come up (`Durability.NewEnvDeviceSticks`); a bot that only ever had an
  environment token loses its sessions at its first password login (`Durability.UncachedKeepsWhen`).
- The escrow is imported at every boot, so an old copy of a session replaces a better one learned
  since (`Durability.SameSessionsWhen`).

## Model

| member | source | states |
|---|---|---|
| `RelayTelegram.StepKeeps` | bridge/relay.py:328-364 | any one step of either loop, any human post, failed send, save or crash keeps the account of repeated sends: sends plus unsaved sends never exceed distinct messages plus restarts plus the one in flight |
| `RelayTelegram.SendsBounded` | bridge/relay.py:145-156 | over every run with crashes anywhere and any failed sends: total sends are at most the distinct messages sent plus restarts, hence at most human messages plus restarts; nothing at or below the first saved cursor, and nothing the relay wrote, is ever sent |
| `RelayForgets.SavedIff` | bridge/relay.py:358-363 | over every run, with failed sends and overflowing polls: no posted message is ever above the saved cursor, except the one in flight, if and only if no stop falls between a post and its save; and then at most one is |
| `RelayForgets.RepeatsBounded` | bridge/relay.py:122-123 | repeated posts number at most the stops that fall between a post and its save |
| `RelayForgets.NoKillNoRepeat` | bridge/relay.py:122-123 | over every run without such a stop, no message is posted twice, whatever sends fail |
| `RelayForgets.KillRepeatsIff` | bridge/relay.py:357-363 | after any stop, at any reachable moment, between a post and its save, some continuation posts that message again if and only if it is among the newest 200 of the Telegram log, the relay's own included |
| `RelayForgets.KillRepeats` | bridge/relay.py:357-363 | and such a continuation needs nothing but a kill, a restart and failed sends |
| `RelayForgets.StaysOneIff` | bridge/relay.py:358-363 | from a reachable state, every continuation up to the next such stop has at most one message a restart would forget, if and only if nothing but the message in flight is unsaved now |
| `RelayExactlyOnce.ExactlyOnce` | bridge/relay.py:328-364 | with no failed send, any backlog at the first start and at most 200 new messages per poll after it, however polls split the log and wherever crashes fall, the sent stream without adjacent repeats is exactly the human messages after the first cursor in id order, with nothing missing once a poll finds nothing new; at most one can be sent again |
| `RelayExactlyOnce.FetchNoGap` | bridge/relay.py:332-336 | the newest-first walk of at most 200, turned round, leaves out no human message above the cursor when no more than 200 are new |
| `RelayLimits.PostedTwice` | bridge/relay.py:357-363 | a concrete run in which one kill makes the relay post the same message twice |
| `RelayLimits.TwoCanBeForgotten` | bridge/relay.py:359-362 | a concrete run with one failed send and one crash after which two sent messages are above the saved cursor |
| `RelayBacklog.NeverBacklog` | bridge/relay.py:404-411 | over every run in which no sync brings events to a relay without a cursor, with any crashes, torn cursor files and syncs that move no cursor: nothing from before the first saved cursor is forwarded |
| `RelayBacklog.BacklogLeaks` | bridge/relay.py:404-411 | from every reachable state of a running relay without a cursor, some continuation forwards any unmarked message of the timeline, as backlog if it lies before the first cursor or there was none |
| `RelayBacklog.BacklogCanLeak` | bridge/relay.py:409-411 | a concrete first start whose sync has no next_batch and after which the old message is forwarded |
| `RelayBacklog.UncursoredRepeats` | bridge/relay.py:264-266 | from every reachable state of a running relay with a message waiting that neither memory nor disk has marked, one answer that brings it without a next_batch, and a crash, can forward it twice |
| `RelayMatrix.AtMostOnceInOrder` | bridge/relay.py:264-325 | over every run with crashes (also one that tears the cursor file), failed sends, aborted batches and undecryptable events, in which an answer that brings events carries a next_batch and is not given to a relay that lost its cursor: forwarded timeline positions strictly rise and are human messages |
| `RelayMatrix.NothingLost` | bridge/relay.py:281-325 | when nothing fails, the first-start sync included, and each sync returns the whole new segment with its next_batch, the forwarded stream equals the filtered timeline up to the next event to handle, restarts between batches included |
| `RelayMatrix.SkipIsRight` | bridge/relay.py:312-316 | in such runs the dedup ring never swallows a message that should be forwarded |
| `RelayEcho.NoEcho` | bridge/relay.py:293-299 | over every run of the closed two-sided system, every relay-written post forwards a human-written one of the other side; on Matrix there are at most as many as human messages plus restarts; on Telegram, while answers that bring events carry a next_batch, at most as many as human messages |
| `RelayEcho.NeverRetried` | bridge/relay.py:319-323 | a timeline position passed over is never forwarded later, in any continuation in which answers that bring events carry a next_batch |
| `RelayEcho.Quiesces` | bridge/relay.py:442-467 | with no human post and no crash, and answers that bring events carrying a next_batch, steps that handle a message plus the weight still pending never exceed the weight pending at the start (two per human message, one per own), and sends are no more than those steps |
| `RelaySettles.Settles` | bridge/relay.py:442-467 | from any idle state, a poll, a pass over the whole new timeline and another poll, no post to Matrix failing and nobody writing, leave nothing pending on either side |
| `RelaySettles.SettlesAsRun` | bridge/relay.py:442-467 | and those three are a run of the machine |
| `RelayEcho.OwedIsFound` | bridge/relay.py:332-338 | while anything is pending, an idle relay's next poll or whole sync finds it, so the loops do not stop early |
| `RelayRing.RingIsTail` | bridge/relay.py:158-167 | for every stream of marks, `mx_seen` is the last 500 entries of the unbounded log of fresh marks |
| `RelayRing.FreshMarksSpaced` | bridge/relay.py:158-167 | `mx_seen` has no repeats, and two fresh marks of one event are at least 501 log places apart however syncs redeliver |
| `RelayRing.State.MarkMx` | bridge/relay.py:158-167 | the object's in-place mark returns whether the id was in the ring, and appends it to the abbreviated log otherwise |
| `RelayRing.State.Save` | bridge/relay.py:145-156 | the file afterwards holds memory unchanged: cutting to 500 drops nothing |
| `RelayRing.Load` | bridge/relay.py:130-143 | any readable state file comes back as it was; a missing one is a first start; a corrupt one stops the process; a file the program wrote keeps the ring's promise |
| `RelayPasses.Relay.MxSyncOnce` | bridge/relay.py:253-278 | the sync is the machine's step: whatever the answer, the cursor in memory and in the file are the new ones before any event of the batch is looked at |
| `RelayPasses.Relay.FetchNew` | bridge/relay.py:332-336 | the collecting loop gathers the newest messages above the cursor, at most 200 of them |
| `RelayPasses.Relay.TgPollOnce` | bridge/relay.py:328-364 | the imperative poll, whatever the sends do, leaves the state the closed form `AfterPoll` gives |
| `RelayPasses.Relay.MxRelayOnce` | bridge/relay.py:281-325 | the imperative Matrix pass leaves the state the closed form `AfterPass` gives |
| `RelayPasses.PollIsRun` | bridge/relay.py:328-364 | every poll is a run of enabled steps of the machine, so all results above hold of it |
| `RelayPasses.PassIsRun` | bridge/relay.py:253-325 | every Matrix pass is a run of enabled steps of the machine |
| `RelayMeaning.PassedOver` | bridge/relay.py:346-363 | over every run: a person's message with text above the first cursor that was not posted is at or below a cursor, in memory or on disk, only together with a newer message that was posted or needed no post |
| `RelayMeaning.FetchReads` | bridge/relay.py:332-336 | a fetch reads exactly the messages above the cursor, or the newest 200 of them |
| `RelayMeaning.PollMeans` | bridge/relay.py:328-364 | a poll posts exactly the people's new messages with text whose posts go through, in order, and leaves both cursors on the last message that was posted or needed no post; a first start posts nothing |
| `RelayMeaning.NextPollReads` | bridge/relay.py:358-361 | so the next poll reads again exactly what came after that message: a failed post is retried if and only if nothing newer of its poll got done |
| `RelayMeaning.AllFailedAllRetried` | bridge/relay.py:358-361 | in particular, when every post fails and every new message asks for one, nothing moves and the next poll reads them all again |
| `RelayMeaning.PassMeans` | bridge/relay.py:281-325 | a pass over events that are new forwards exactly the people's messages whose posts go through, in timeline order and encrypted or not, marks every event that can be read, and saves |
| `RelayMeaning.RedeliveryIsSilent` | bridge/relay.py:158-167 | up to 500 new events that come once more, for want of a next_batch, are not forwarded again, whatever became of them the first time |
| `RelayMeaning.SavedForwardStays` | bridge/relay.py:324 | over every run, once the save after a forward is done, a kill and a redelivery do not forward that event again |
| `Vetting.AnswerMeans` | knock-approver/approver.py:753-800 | a batch of answers promotes exactly when one passes before the tries run out, rejections counted up to it |
| `Vetting.StepKeeps` | knock-approver/approver.py:736-800 | a sync or a sweep keeps a vetting room's invariant: promoted and closed exclusive, tries left equal to the maximum minus rejections and positive while open |
| `Vetting.ProcessMeans` | knock-approver/approver.py:716-800 | one sync promotes an open room exactly when the invitation goes through and an answer of the knocker in the timeline passes, three lines, 30 to 400 characters, the keyword and a displayname, with fewer failing ones before it than tries left; and closes it exactly when that many fail first |
| `Lobby.ProcessKeeps` | knock-approver/approver.py:984-1077 | one sync keeps a lobby room's invariant: promoted implies closed, by a passing answer of a user challenged before this sync; per-user tries and counters agree |
| `Lobby.ResendsBounded` | knock-approver/approver.py:1093-1146 | a sweep keeps resends to a user at most the challenges to them, and resends nothing to a user rejected since the last challenge |
| `LobbyMeaning.ChallengesMean` | knock-approver/approver.py:984-1020 | everybody who joins is put on the list, with all tries, no resend, and the name and time of the last join, and nobody else's entry is touched |
| `LobbyMeaning.SyncPromotes` | knock-approver/approver.py:1022-1077 | one sync of a live room promotes the sender of the first passing answer of users challenged before, exactly when there is one and the invitation is not refused |
| `LobbyMeaning.SweepResends` | knock-approver/approver.py:1093-1146 | the sweep resends once, and dates it, to exactly the users on a live room's list whose challenge is overdue, unanswered and not yet resent |
| `Onboarding.StepKeeps` | knock-approver/approver.py:663-690 | every handler keeps the accounts of all codes, rooms, promotions and sign-ups |
| `Onboarding.CodesConserved` | knock-approver/approver.py:402-420 | over any run of knocks, joins, mints, revokes, seeds and restarts: for every code, uses granted equal uses remaining plus vetting and lobby rooms charged to it plus uses revoked; promotions are the promoted rooms and at most the uses consumed |
| `Onboarding.AccountsBounded` | knock-approver/approver.py:1852-1885 | over any run and any seeds, accounts registered are at most the usable sign-up uses seeded or minted plus the welcome uses times promotions; and no counter goes below zero unless a seed put it there |
| `Onboarding.ClosedForGood` | knock-approver/approver.py:716-733 | in any run no record disappears, and a promoted or closed room of either kind is the same record ever after |
| `Onboarding.EveryVettingRoom` | knock-approver/approver.py:736-800 | over any run, in every vetting room: promoted and closed exclude each other, tries left are the maximum minus rejections, and a promotion is for the knocker's own passing answer with fewer rejections than the maximum |
| `Onboarding.EveryLobbyRoom` | knock-approver/approver.py:984-1146 | over any run, in every lobby room: a promotion closes it and rests on a passing answer of a challenged user; resends to a user never exceed challenges |
| `Origins.VettingOrigin` | knock-approver/approver.py:663-690 | over any run, every record of vetting.json was made by a knock in it, for that knocker, code, time and keyword, with a code that had a use left |
| `Origins.KnockerPromoted` | knock-approver/approver.py:736-800 | so a promotion is of the person whose knock made the room, for an answer with the keyword of that knock, in three lines of 30 to 400 characters, under a displayname, within the tries |
| `Origins.LobbyOrigin` | knock-approver/approver.py:892-930 | over any run, every record of lobby.json was made by a join link in it, with that code, time, title and keyword, and a code that had a use left |
| `Origins.RevokedForGood` | knock-approver/approver.py:1413-1433 | over any continuation, restarts with the same seed included, a revoked knock code has no use and opens no room of either kind |
| `Origins.RevokedSignupForGood` | knock-approver/approver.py:1413-1433 | and a revoked sign-up code registers no account |
| `LobbyRuns.PromotionFollowsChallenge` | knock-approver/approver.py:984-1077 | over any run, a promoted room was promoted by one sync, for a passing answer it brought, of a user whom an earlier step had challenged there |
| `LobbyRuns.RejectsIff` | knock-approver/approver.py:1022-1077 | over any run, a step costs a user a try if and only if it brings a live room an answer of theirs that fails, with none before it that passes |
| `LobbyRuns.ProcessTakes` | knock-approver/approver.py:1078-1086 | one sync takes a user off the list once for each failing answer that leaves them no tries |
| `LobbyRuns.ExhaustedIsOff` | knock-approver/approver.py:1078-1086 | over any run, a step that leaves a user, once on the list, with no tries takes them off it |
| `LobbyRuns.NoTryAfterTheLast` | knock-approver/approver.py:1078-1086 | over any run, between such a step and a later one that promotes that user or costs them a try there is a step that challenges them anew |
| `LobbyRuns.NoResendAfterReject` | knock-approver/approver.py:1093-1146 | over any run, between a step that costs a user a try and a later resend to that user there is a step that challenges the user anew |
| `Onboarding.NoStaleRooms` | knock-approver/approver.py:804-822 | once a cycle has swept both kinds of rooms, no continuation of any handlers, with new rooms dated no earlier than the timeout allows, has an open room too old for that cycle's clock |
| `ApproverObject.Approver.HandleKnock` | knock-approver/approver.py:663-700 | the handler's effect on the files is the machine's knock step |
| `ApproverObject.Approver.JoinHandler` | knock-approver/approver.py:892-930 | the handler's effect is the machine's join step, and it answers ok exactly for a usable code whose room was made |
| `ApproverObject.Approver.SignupHandler` | knock-approver/approver.py:1852-1885 | a use is spent exactly when the registration succeeded |
| `ApproverObject.Approver.CmdRevoke` | knock-approver/approver.py:1413-1433 | the code's uses become zero in the first file that has it |
| `ApproverObject.Approver.CmdMint` | knock-approver/approver.py:1324-1396 | the new codes get the asked-for uses, or nothing changes when the counts are out of range |
| `ApproverObject.Approver.MergeSeed` | knock-approver/approver.py:402-420 | only missing codes are added; an existing counter is left alone, so a restart gives nothing back |
| `ApproverObject.Approver.ProcessVettingRoom` | knock-approver/approver.py:736-800 | the loop over answers, its promotion and its welcome code are the machine's vetting step |
| `ApproverObject.Approver.ProcessLobbyRoom` | knock-approver/approver.py:984-1077 | challenges, answers, promotion and welcome code are the machine's lobby step |
| `ApproverObject.Approver.ProcessLobbyResends` | knock-approver/approver.py:1093-1146 | the sweep is the machine's resend step |
| `ApproverObject.Approver.CleanupStaleVetting` | knock-approver/approver.py:804-822 | the sweep closes exactly the open vetting rooms past the timeout |
| `ApproverObject.Approver.CleanupStaleLobby` | knock-approver/approver.py:1149-1163 | the sweep closes exactly the live lobby rooms past the timeout |
| `Announce.PostsDue` | knock-approver/approver.py:1509-1534 | a cycle posts exactly the notices the record lacks, each once: no repeats even when `challenged` has them, nothing for rooms closed before they were recorded |
| `Announce.PostsWhen` | knock-approver/approver.py:1498-1534 | stated on the record and the file: a user is announced exactly when challenged and not in the room's record, or in an open room without one; a failure exactly when the record has the room as not failed and it was closed for another reason than a promotion, an existing membership or a timeout nobody joined |
| `Announce.FirstCycleSettles` | knock-approver/approver.py:1482-1496 | the first cycle posts nothing, takes all the lobby shows as told, and the next is silent too |
| `Announce.NoticeBounded` | knock-approver/approver.py:1497-1542 | over any number of cycles, if rooms that leave lobby.json do not come back, each notice is posted at most once plus once per cycle that a raising send, or a kill at any point before a save it had to make, cut short |
| `Announce.CutRepeats` | knock-approver/approver.py:1509-1542 | after a cycle cut short, a whole cycle on the same lobby posts everything that was due, so exactly what the cut one got out is posted twice |
| `Announce.CannotFlood` | docs/incidents/2026-05-09-announce-flood.md:108-137 | total notices are at most distinct (room, user) challenges plus rooms, times one plus the cycles cut short |
| `Announce.Converges` | tests/announce_unit.py:43-76 | after a finished non-first cycle the record lacks nothing the lobby shows and a repeat posts and writes nothing; its rooms are exactly the lobby's if and only if something was saved or none was missing before |
| `Announce.UserOnce` | knock-approver/approver.py:1509-1519 | a user seen challenged in an open room after seeding is announced exactly once over the whole run |
| `Announce.FailureTimes` | knock-approver/approver.py:1498-1534 | when a room only seen open is found closed for a bad reason with somebody still challenged, its failure is posted once over the whole run if the record had the room by then, and never if not |
| `Announce.RecordedIff` | knock-approver/approver.py:1535-1542 | the record has a room the lobby file has kept, and it did not start with, if and only if some cycle that saw the room had something to save on account of any room |
| `Announce.FailureIff` | knock-approver/approver.py:1498-1542 | so the failure is posted, once, if and only if some earlier cycle that saw the room had something to save |
| `Announce.FailureOnce` | knock-approver/approver.py:1520-1534 | in particular, a room once seen open with a challenged user and later closed for a bad reason with one still challenged yields exactly one failure notice |
| `Announce.RecordedFailureIsTold` | knock-approver/approver.py:1520-1534 | the two-cycle case of it for any record and room: open with one user, then timed out, posts the failure once |
| `Announce.UnrecordedFailureIsSilent` | knock-approver/approver.py:1498-1508 | from the record a first cycle writes, a concrete pair of cycles after which the failure of a room seen open is never announced |
| `LobbyNotices.HandlersCannotFlood` | knock-approver/approver.py:1472-1542 | for cycles reading, at any moments, the lobby file of any run of the handlers, the bound on notices holds with nothing asked of the file: no record of it ever disappears |
| `LobbyNotices.EveryChallengeTold` | knock-approver/approver.py:1509-1519 | and every user the handlers had challenged in a room still open when a cycle read the file is announced exactly once, if no cycle is cut short and the record began without |
| `Announce.Announcer.AnnounceLobbyEvents` | knock-approver/approver.py:1472-1542 | the imperative cycle, including one stopped by a raising send or a kill before its save, does to record and room exactly what the specification's step does |
| `Durability.HistoryKept` | knock-approver/approver.py:2184-2218 | over any run of boots (dying between any two writes, inside the escrow write or inside the import, or failing their export), re-mints and arriving sessions, from a cached device, in which no boot writes the escrow over from a store an import left half done: every session ever held is in the store or in escrow, and whenever the bot is up it is in the store together with all of the escrow |
| `Durability.StepLossless` | knock-approver/approver.py:2204-2218 | one step loses a session if and only if it is a boot that wipes and reaches the export, whether or not it reaches the wipe, while the escrow holds something the store lacks |
| `Durability.LosslessIff` | knock-approver/approver.py:2184-2218 | over whole runs, no session is ever lost if and only if no boot does that |
| `Durability.HalfImportThenRotateLoses` | knock-approver/approver.py:2204-2218 | a concrete disk and server on which a session is lost, wherever the boot dies from the escrow write on, or if it comes up |
| `Durability.UncachedKeepsWhen` | knock-approver/approver.py:2204-2206 | with no cached device, a boot keeps the sessions if and only if it did not have to log in or the escrow had them all |
| `Durability.LoginReuses` | knock-approver/approver.py:222-255 | a login takes the cached device whenever the homeserver gives it back, a new one only when not, and is written down |
| `Durability.SameDeviceKeepsStore` | knock-approver/approver.py:2204-2218 | a boot whose credentials are for the cached device, however they came, keeps the store and leaves the escrow as it was |
| `Durability.NewDeviceMovesStore` | knock-approver/approver.py:2204-2218 | one for another device moves everything the store held through the escrow into a store under the new device |
| `Durability.UncachedLoginStartsOver` | knock-approver/approver.py:2204-2206 | with no cached device, a login starts over with nothing but the escrow's sessions |
| `Durability.SoundComesUp` | knock-approver/approver.py:1684-1702 | a store written under the cached device comes up, whichever way the credentials came, if and only if no torn escrow is left to import; up or not, no session it held is gone; and it is sound again if and only if the device is the cached one or came by a login |
| `Durability.SameSessionsWhen` | knock-approver/approver.py:334-362 | a boot brings every held session back unchanged if and only if it wiped the store or the escrow agreed with it |
| `Durability.GetsStuckWhen` | knock-approver/approver.py:195-266 | from a sound disk, a boot leaves a store the next boot cannot read in exactly two cases: an unminted token with a new device, or a login with a new device that died after writing it down and before the wipe |
| `Durability.StuckForever` | knock-approver/approver.py:2211-2218 | from there no boot comes up and none touches store or escrow |
| `Durability.NewEnvDeviceSticks` | knock-approver/approver.py:215-220 | an environment token with a new device works for one boot and never again |
| `Durability.Bot.ResolveCredentials` | knock-approver/approver.py:195-259 | the four paths in order, and only a login writes token and device down, the token first |
| `Durability.Bot.ExportInboundSessions` | knock-approver/approver.py:296-331 | every held session is in the new escrow, or its write was cut off, or reading failed and the old escrow is untouched |
| `Durability.Bot.ImportInboundSessions` | knock-approver/approver.py:334-362 | the store afterwards has every entry, over its own copy, and nothing else changed |
| `Durability.Bot.BootUp` | knock-approver/approver.py:2184-2218 | the imperative boot is the specification's boot at every stopping point: between the two credential writes, before, inside and after the escrow write, after the wipe, and inside the import |
| `Bundle.EachRowOnce` | knock-approver/approver.py:1575-1615 | every session row of the room is in exactly one of `room_keys` and `withheld`, once, and nothing else is in either |
| `Bundle.RoundTrip` | landing/responder.py:108-148 | from the recorded inviter, the receiver gets the builder's copy of exactly the exported sessions, and every other entry stays as it was |
| `Bundle.ImportIsConfined` | landing/responder.py:127-148 | any import, also one stopped part-way, changes only the stated room, only for its recorded inviter, and only to what the bundle says of that room |
| `Bundle.AcceptsIff` | landing/responder.py:108-148 | an import is reported done if and only if the room's recorded inviter sent it, the attachment reads, and every item has the algorithm, this room and a key that parses |
| `Bundle.ImportTakes` | landing/responder.py:127-148 | of each session, an import leaves the last copy before the first item that cannot be imported |
| `Bundle.InviterIsFirst` | landing/responder.py:80-90 | the inviter remembered of a room is the sender of the first membership event that invites the bot |
| `Bundle.OnlyInvitersGive` | landing/responder.py:80-90 | over any run, every changed entry came in a bundle for its room from someone who had invited the bot there earlier in the run |
| `Bundle.BuildRoomKeyBundle` | knock-approver/approver.py:1588-1615 | the loop's two lists are the specification's |
| `Bundle.Responder.RememberInviters` | landing/responder.py:80-90 | the first matching invite of each room decides its inviter; a room without one keeps what it had |
| `Bundle.Responder.ImportRoomKeyBundle` | landing/responder.py:108-148 | the table afterwards has the items before the first bad one, and the result says whether there was none |
| `BulkRedact.PickedIff` | deploy/admin/bulk_redact.py:88-103 | the targets are exactly the first events of their ids that are of the sender asked for, inside the window with both its ends, not redacted and with an id |
| `BulkRedact.RefusalFails` | deploy/admin/bulk_redact.py:85-86 | a page refused before anything too old was seen makes the whole search fail with that status |
| `BulkRedact.FilterIsFirst` | deploy/admin/bulk_redact.py:89-103 | each target is the first event of its id that matches sender, window and not-redacted |
| `BulkRedact.FirstIsPicked` | deploy/admin/bulk_redact.py:89-103 | each such first event is a target |
| `BulkRedact.FilterDistinct` | deploy/admin/bulk_redact.py:100-103 | targets have distinct ids |
| `BulkRedact.CompleteIff` | deploy/admin/bulk_redact.py:77-108 | the walk finds exactly the filter of the whole history for every split into non-empty pages within the limit, if and only if nothing new matches past an event older than the window |
| `BulkRedact.InOrderIsEnough` | deploy/admin/bulk_redact.py:67-70 | timestamps that never increase along the walk meet that condition |
| `BulkRedact.CollectTargets` | deploy/admin/bulk_redact.py:67-109 | for any server, the loop returns the filter of the pages it walked and their number, or the first failing status |
| `Sas.AgreedAtEnd` | tests/sas_e2e.py:112-229 | with in-order delivery in each direction, any order across them and any other transactions handled in between: neither end ever cancels, nothing is left to deliver exactly from the eighth delivery on, and then the initiator has succeeded and its device is verified |
| `Sas.Agreement` | landing/sas_verification.py:71-179 | each delivery leaves an agreeing point of the exchange with one fewer to come: the commitment and both MAC checks always match |
| `Sas.NonInterference` | landing/sas_verification.py:212-263 | whatever other transactions are handled in between, a transaction's session and all messages about it are those of its own events alone |
| `Sas.VerifiedByDone` | landing/sas_verification.py:171-179 | a device is verified after a run exactly when it was before or a transaction with it ended in a done |
| `Sas.MacDecides` | landing/sas_verification.py:155-179 | a MAC message verifies the device, and sends a done, if and only if it meets both MAC equations over the key the directory has; otherwise a cancel is all it gets; the session is over either way |
| `Sas.KeyAnswered` | landing/sas_verification.py:94-153 | a valid key is answered by the session's own and by a MAC over our signing key that meets the same equations from the other end |
| `Sas.StartAnswered` | landing/sas_verification.py:71-92 | a start is answered by a commitment to the session's key and the start without its transaction id, or a cancel for an unknown method; a new transaction belongs to its sender |
| `Sas.VerifiedTruly` | landing/sas_verification.py:155-174 | over whole runs, every device the run verifies has an event in it whose two MACs meet the equations over the signing key the directory has for that device, under its transaction's secret |
| `Sas.SasManager.MacReceived` | landing/sas_verification.py:155-179 | the handler's effect on sessions, devices and outgoing messages is the specification's |
| `Sas.SasManager.Dispatch` | landing/sas_verification.py:212-263 | every event reaches its handler, or none, with the specification's effect |

## Left out

- HTTP, mautrix, Telethon, SQLite, olm and the file system: a send, a save and a database row are atomic, and the homeserver's answers are inputs. A `State.save` that raises is not a step.
- Message texts, display names, media placeholders, Wikipedia challenges and alias generation: `_vet` is the predicate it computes on a message, and a challenge's title and keyword are inputs.
- Interleaved onboarding handlers: `handle_knock`, `join_handler`, `signup_handler` and the lobby loop save a copy read before an await, so two at once can lose an update; handlers here run one at a time, do not crash half-way, and their sends do not raise.
- AccountsBounded: counts a negative number of uses in a seed as none, because no code with it can be used.
- CodesConserved: takes new random codes and new room ids as distinct from those on file.
- AtMostOnceInOrder: asks that an answer that brings events carries a next_batch and is not given to a relay that lost its cursor, because the code can forward such events again when it does not (UncursoredRepeats, BacklogLeaks).
- NeverRetried: asks the same, for the same reason.
- NoEcho: asks the same for the bound on Telegram posts alone.
- Quiesces: asks the same, because without a cursor the work fetched is fetched again.
- HistoryKept: starts from a cached device and asks that no boot writes the escrow over from a store an import left half done, because the code loses history in both cases (stated separately, with their exact conditions).
- LosslessIff: starts from a cached device; a boot without one takes no copy (UncachedKeepsWhen).
- The token and device files' writes are one step each, as is deleting the store; a credential file cut off inside its write is not part of this model.
- A /whoami answer without a device id, and the second bot's credentials, which have no crypto store.
- RoundTrip: takes the store's rows as keyed by room and session id, and an exported session as imported unchanged; encryption and upload of the attachment are not part of this model.
- ImportIsConfined: takes the store's rows as keyed by room and session id.
- OnlyInvitersGive: takes the store's rows as keyed by room and session id.
- Agreement: any lawful key agreement, MAC and hash; message fields that are constants are not carried. Handlers run one at a time, `put_devices` stores the one device it is given, and `_SASSession` objects are values in the manager's dictionary.
- Landing pages, cross-signing upload, admin replies, the `!codes` and `!help` commands, rate limits and sleeps.

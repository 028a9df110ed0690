# GitIM, modelled and proved in Dafny

GitIM keeps chat state as plain text files in Git and drives it with several daemons at once. This
project models the parts of it where that is hard to get right and proves what they promise. Each
module says at its top what it covers:

- **Thread files**: `Text`, `Thread` (printer and parser), `ThreadText` (the format in characters),
  `ThreadFraming`, `BodyForm`, `Renumber` (conflict resolution), `Paging`, `QuickSession` (create and its
  retry).
- **Cron**: `CronEngine` (the scan and the tick sequence), `CronTicks` (the whole directory), `CronRuns`
  (whole runs with failures), `CronFleet` (many clones), `Calendar` (the program's filename codec on
  instants).
- **Daemon start-up**: `Lifecycle` (the lock protocol), `Respawn` (the client's backoff loop).
- **Git as a store**: `GitTrees` (working tree, index, HEAD), `Rollback` (cards), `SessionRollback`
  (quick sessions and cron fires), `PushProtocol` (many clones, one remote), `PushRetry`, `Onboard`,
  `Reconcile`.
- **Run-level state**: `FlowRun`, `PendingPush`, `Timers`.
- **Routing and names**: `Recipients`, `Filenames`, with `Lexicographic`; `Results` holds the option
  and result types.

Code that loops or updates in place is a method or a class proved equal to a function; the theorems are
lemmas about those functions, for all inputs, all runs or all interleavings. `dafny verify
dfyconfig.toml` checks everything.

## What the code turned out not to promise

Where a property fails, the model keeps the code's behaviour, and a lemma gives the exact condition:

- A body that ends in a blank line loses one newline on every rewrite, so it has no stable form after one
  round and a retried create of such a session is refused as a collision (`NormalSettles`,
  `CreateIsRetrySafeCrFree`).
- A message whose first line is empty, or an append to a file without a final newline, is not read back
  as a new entry (`AppendFrames`).
- The parser's "first non-empty line" error means the first line: a leading blank line is refused, whatever
  follows (`HeadlessExactly`, `LeadingBlankLineIsRefused`).
- Resolving a conflict loses a local message whose first line is only carriage returns (`SecondMessageIsLost`),
  fails if it is the first of the batch, and misreads a remote file that ends in a carriage return
  (`ResolveKeepsBothSides`).
- The cron engine loses an occurrence for good as soon as one gap between ticks exceeds a minute by any
  amount (`LongerGapLoses`), although its comment sizes the grace window to tolerate mild drift.
- Two clones that create a spec of the same name before they sync can both commit the same fire, each for its
  own handler (`RivalsBothFire`); they cannot if every name is created in one place (`OneCloneFires`).
- A spec created again where `spec.yaml` had gone but fire files remained can fire before its own creation
  (`RecreatedFiresEarly`); `ScanIsSafe` says exactly when a request is later than the creation.
- A failed cron fire deletes its file but leaves it staged, so the next commit of any handler carries it
  (`FireRollbackExact`).
- A daemon whose `main` returns an error after its tasks were started drops its lease while a task may be
  past the ownership check, and can delete its successor's pid file (`EarlyReturnIsUnsafe`). A run is safe
  exactly if no such straggler removes a file that is there (`RunIsSafeExactly`).
- Renumber callbacks are delivered lowest line first, which renumbers pending messages wrongly exactly
  when fewer lines came in from the remote than are pending (`AscendingIsSafeIff`, `TwoMessagesCollide`).
- A successful push does not always mean the commit is on the remote (`PushedButMissing`), nor even its change:
  a registration whose twin was pushed and undone again is skipped as already applied (`PushedAndGone`). An
  operation that was not discarded is on the remote exactly if no rebase of the run left it out
  (`LandsExactly`), and a rebase leaves out exactly the commits whose patch is among the upstream's new ones
  and those whose every changed path the tip holds (`DroppedExactly`).
- Initialising the repository can succeed without the general channel (`ReadyWithoutChannel`), because after a
  push conflict it resets to the remote-tracking branch without fetching; `ChannelMissingExactly` has the
  condition. The same reset discards every other handler's unpushed commits. In a clone that has never seen
  a remote commit the reset fails and so does the call.
- Leftovers at the destination of a card or session move swallow the directory, and a failure after that is
  not rolled back (`MoveCard`, `MoveSession`); a reconcile pass over a card without a discussion thread fails
  after all moves are done (`Reconcile.Workspace.Run`).
- A run whose last request fails to commit is over on disk and never announced (`AnnouncedExactly`).
- `partition_fired` sorts the fired timers too; its comment says they keep input order
  (`PartitionFired`).

## Model

| member | source | states |
|---|---|---|
| Text.SplitReplace | crates/gitim-core/src/parser.rs:29-34 | Rewriting `\r\n` to `\n` takes exactly one carriage return off every terminated line and touches nothing else |
| Text.PadRoundTrip | crates/gitim-core/src/formatter.rs:8-24 | A zero-padded line number of any width reads back as the same number |
| Thread.FormatMessage | crates/gitim-core/src/formatter.rs:8-43 | The buffer-pushing loop prints exactly the entry's lines: head, then continuation lines escaped only where they look like a message start |
| Thread.ParseThread | crates/gitim-core/src/parser.rs:29-108 | The two-variable line loop with in-place finalisation equals the left fold of one step per line, including which line fails and how |
| Thread.Consume | crates/gitim-core/src/parser.rs:39-123 | One turn of the loop: opening, continuing or refusing a line does to the finalised entries what the specification's step does |
| Thread.OnlyTheFirstLineCanBeHeadless | crates/gitim-core/src/parser.rs:86-101 | From any state of the loop, a missing message start is only ever reported for line 1 |
| Thread.HeadlessExactly | crates/gitim-core/src/parser.rs:37-101 | The file is refused for want of a message start if and only if it has lines and the first one does not match the pattern; the error names line 1 |
| Thread.LeadingBlankLineIsRefused | crates/gitim-core/src/parser.rs:86-90 | A leading blank line is an error whatever follows it |
| ThreadText.MessageText | crates/gitim-core/src/formatter.rs:8-43 | A written message is `[L`, the line number, `][P`, the target, `][@author][timestamp] ` and the body, both numbers zero-filled to six places or to the line number's own length; a later body line gets one space in front exactly if it is `[L`, six or more digits, `]` and anything |
| ThreadText.WriteMessage | crates/gitim-core/src/formatter.rs:8-43 | The formatter's loop writes that text on every input |
| ThreadText.EventText | crates/gitim-core/src/formatter.rs:45-64 | A written event is the same head with target zero, the bracketed event type, and the JSON on one line |
| ThreadText.StartExactly | crates/gitim-core/src/formatter.rs:5-6 | The escape test holds of exactly the lines that are `[L`, six or more digits, `]` and anything |
| ThreadText.StartsExactly | crates/gitim-core/src/parser.rs:23-27 | The parser takes a line for the start of an entry, with the given parts, if and only if the line is those parts in their brackets, each of its character class |
| ThreadText.HandlerExactly | crates/gitim-core/src/types/handler.rs:24-48 | A handler is accepted if and only if it has 1 to 39 characters from `a`–`z`, `0`–`9` and `-`, no hyphen at either end or next to another, and is not the reserved name |
| ThreadFraming.AppendFrames | crates/gitim-core/src/parser.rs:29-123 | Reading a readable file plus one formatted entry gives the old entries plus that entry in normal form if and only if the file is newline-terminated and the entry has a visible first line |
| ThreadFraming.FileFrames | crates/gitim-core/src/formatter.rs:8-64 | A file built by any number of messages and events reads back as exactly those entries, in order, bodies in normal form; no continuation line becomes an entry |
| ThreadFraming.InvisibleIsLost | crates/gitim-core/src/parser.rs:23-27 | A message with nothing on its first line adds no entry: the reader swallows it |
| ThreadFraming.UnterminatedNeverFrames | crates/gitim-daemon/src/thread_io.rs:24-31 | Appending to a file without a final newline never adds the entry |
| BodyForm.NormalIsIdentity | crates/gitim-core/src/parser.rs:92-101 | Writing and reading a body is the identity if and only if it has no final newline, no line ending in a carriage return and no continuation line starting with the escaped prefix |
| BodyForm.NormalSettles | crates/gitim-daemon/src/quick_session_handlers.rs:66-74 | A second round changes nothing if and only if the body's last line has text and no line ends in more than two carriage returns |
| BodyForm.CrFreeSettles | crates/gitim-core/src/formatter.rs:25-40 | Without carriage returns, one round reaches the stable form exactly unless the body ends in two newlines |
| QuickSession.CanonicalIsNormal | crates/gitim-daemon/src/quick_session_handlers.rs:66-74 | Formatting and parsing with the fixed header yields the normal form, and fails exactly when there is no first line |
| QuickSession.FirstCreate | crates/gitim-daemon/src/quick_session_handlers.rs:340-360 | A first create stores line 1 without a target, under the given id, agent and author, if and only if the message and its normal form have a first line; otherwise it is rejected |
| QuickSession.SecondCreate | crates/gitim-daemon/src/quick_session_handlers.rs:295-338 | After any later messages, a second create with the same id is recognised exactly when agent and author agree and its message normalises to what the stored one reads as; otherwise it collides |
| QuickSession.CreateIsRetrySafe | crates/gitim-daemon/src/quick_session_handlers.rs:295-363 | Repeating a create verbatim finds the existing session if and only if the submitted body was settled |
| QuickSession.CreateIsRetrySafeCrFree | crates/gitim-daemon/src/quick_session_handlers.rs:295-363 | Without carriage returns the retry is refused exactly for bodies ending in a blank line |
| Renumber.RenumberBatch | crates/gitim-sync/src/renumber.rs:13-57 | The map-building and output loops write exactly the renumbered entries, or fail as the parse fails |
| Renumber.ResolveKeepsBothSides | crates/gitim-sync/src/conflict.rs:105-167 | A readable remote and batch resolve if and only if the first local entry, if any, has a visible first line; the resolved file then reads as all remote entries followed by all local ones renumbered if and only if every local entry has one and the remote does not end in a carriage return |
| Renumber.BatchReads | crates/gitim-sync/src/conflict.rs:137-144 | A formatted batch parses if and only if it is empty or starts with a visible entry |
| Renumber.SecondMessageIsLost | crates/gitim-sync/src/conflict.rs:130-163 | Two local messages that read as two are resolved without error into a file that shows one |
| Renumber.RenumberKeepsReplies | crates/gitim-sync/src/renumber.rs:20-50 | New numbers come from the last entry sharing the old one, so an entry takes its own place exactly when no later one shares its number; replies inside the batch follow their target, others keep it, a body changes exactly when it is not plain, and an event keeps its type |
| Renumber.TerminateKeepsReading | crates/gitim-sync/src/conflict.rs:154-158 | Adding the missing final newline leaves a readable file's reading alone if and only if it does not end in a carriage return, and never adds an entry |
| Renumber.CleanIsVisible | crates/gitim-core/src/parser.rs:23-27 | Additions without carriage returns always have visible first lines |
| Paging.ReadThreadEntries | crates/gitim-daemon/src/thread_io.rs:37-66 | Retain, truncate and drain give the page specification on every input |
| Paging.BoundedEntries | crates/gitim-daemon/src/quick_session_handlers.rs:167-185 | The second pager gives the same page, so the two agree on every input |
| Paging.PageExactly | crates/gitim-daemon/src/thread_io.rs:46-63 | A limit alone returns the newest entries, exactly that many if older ones remain; with a since line the page is the entries numbered above it, in order, up to the limit |
| Paging.AfterExactly | crates/gitim-daemon/src/thread_io.rs:46-48 | Retaining keeps exactly the entries numbered above the line, at their places and in order |
| Paging.PollingIsLossless | crates/gitim-daemon/src/thread_io.rs:46-63 | Polls and appends in any interleaving leave the reader with a prefix of the thread: no gap, no repeat |
| Paging.PollAdvances | crates/gitim-daemon/src/thread_io.rs:46-58 | A poll hands over the next entries, as many as there are up to the limit |
| Paging.PagingBack | crates/gitim-daemon/src/thread_io.rs:50-58 | Paging back with since = oldest − limit − 1 returns exactly the preceding `limit` entries |
| Paging.AppendNumbers | crates/gitim-daemon/src/thread_io.rs:8-34 | An append adds one entry with the next number and keeps the file terminated and contiguously numbered |
| CronEngine.LatestFireInDir | crates/gitim-daemon/src/cron_engine.rs:286-300 | The loop returns the latest instant among the names that are fires, and none if there are none |
| CronEngine.ScanDue | crates/gitim-daemon/src/cron_engine.rs:123-158 | The directory loop collects exactly the requests of the listing, in listing order; `DueExactly` says which they are |
| CronTicks.DueExactly | crates/gitim-daemon/src/cron_engine.rs:123-158 | The requests are those of the directories whose spec is parsed, enabled and owned and has a due occurrence, one each, in listing order, with that name and instant, and no others |
| CronTicks.DueOnce | crates/gitim-daemon/src/cron_engine.rs:138-155 | Among directories of different names a due one has exactly one request with its name, for its due instant |
| CronEngine.ScanMeaning | crates/gitim-daemon/src/cron_engine.rs:165-282 | A scan requests an instant if and only if the spec is readable, enabled and owned and it is the earliest occurrence after the clamped anchor, not in the future; the existing-file check decides nothing |
| CronEngine.RequestIsFresh | crates/gitim-daemon/src/cron_engine.rs:206-282 | A request is in the last two minutes, after every fire on disk (or after creation), and for the scanning handler |
| CronEngine.NoLoss | crates/gitim-daemon/src/state.rs:645-668 | With tick gaps up to a minute and occurrences a minute apart, every occurrence after the first anchor is fired once, in order, by the first tick a minute later; at most one is ever waiting |
| CronTicks.EachOnItsOwn | crates/gitim-daemon/src/state.rs:645-668 | Ticks that scan the whole directory and fire every request do to each owned spec, among any others, broken ones and strays included, what ticks of its own would |
| CronTicks.NoneLost | crates/gitim-daemon/src/state.rs:645-668 | Under the same pacing, no enabled spec of this handler in the directory loses an occurrence: each is fired once, in order, through the whole scan |
| CronEngine.MissedStaysMissed | crates/gitim-daemon/src/cron_engine.rs:235-258 | An occurrence outside the grace window is never fired later |
| CronEngine.LongerGapLoses | crates/gitim-daemon/src/cron_engine.rs:235-258 | For every gap longer than a minute there is a run that loses an occurrence, whatever ticks follow |
| CronRuns.Engine.Fire | crates/gitim-daemon/src/cron_engine.rs:348-450 | Firing succeeds exactly if the spec is gone, the file is there or the commit works; a success adds the stem's thread file and the commit and nothing else, a failed write changes nothing, and a failed commit takes the file away again and leaves it staged |
| CronRuns.CommittedInOrder | crates/gitim-daemon/src/cron_engine.rs:394-437 | In every run with failures, crashes, commits by others, deletions, edits, re-creations and pulls, the engine's commits for a spec are strictly increasing and later than its first creation, and none repeats a fire another commit carried |
| CronRuns.ScanIsSafe | crates/gitim-daemon/src/cron_engine.rs:206-275 | In every reachable store a request lies in the window, after all fire files and for this handler's spec, the existing-file guard is unreachable, and it is later than the creation if and only if no occurrence lies between anchor and creation |
| CronRuns.RecreatedFiresEarly | crates/gitim-daemon/src/handlers/cron.rs:134-152 | A spec created again over old fire files fires an occurrence before its creation |
| CronFleet.RivalTargets | crates/gitim-daemon/src/cron_engine.rs:199-208 | In every run of any number of clones, clones with different handlers commit the same fire only if each store had recorded its own handler as a target of the spec |
| CronFleet.OneCloneFires | crates/gitim-daemon/src/cron_engine.rs:199-208 | If every name is created in one clone only, clones with different handlers commit disjoint sets of fires |
| CronFleet.RivalsBothFire | crates/gitim-daemon/src/handlers/cron.rs:134-152 | Two clones that create the same name before they sync both commit the same fire |
| Calendar.FieldsOf | crates/gitim-daemon/src/cron_paths.rs:46-49 | Every second of the years 0000 to 9999 has valid calendar fields that stand for it |
| Calendar.SecondsOrder | crates/gitim-daemon/src/cron_paths.rs:26-36 | Chronological order of calendar fields is the order of instants |
| Calendar.DaysBeforeClosed | crates/gitim-daemon/src/cron_paths.rs:46-49 | The days before a year follow the Gregorian rule in closed form |
| Calendar.ProgramIsSound | crates/gitim-daemon/src/cron_paths.rs:26-49 | The program's codec satisfies the hypothesis of the cron theorems on all of the years 0000 to 9999 |
| Calendar.StemsSortFires | crates/gitim-daemon/src/cron_engine.rs:286-300 | Lexicographic order of the engine's filenames is the order of the instants |
| Lifecycle.DaemonLifecycle.Acquire | crates/gitim-daemon/src/lifecycle.rs:28-50 | Acquire succeeds exactly when the lock is free and no file operation fails; refused it touches nothing, and an I/O error drops the lock with the stale files removed up to the failure |
| Lifecycle.DaemonLifecycle.Cleanup | crates/gitim-daemon/src/lifecycle.rs:79-87 | Cleanup removes all three files exactly if the pid file names this process |
| Lifecycle.BootIsAcquire | crates/gitim-daemon/src/lifecycle.rs:28-50 | A candidate's single steps, uninterrupted, add up to an acquire |
| Lifecycle.OnlyTheHolderTouches | crates/gitim-client/src/daemon.rs:372-416 | In every interleaving of probes, candidates, exits and crashes at most one process holds the lease, and a step changes a file only if it is the holder's or that of a process that outlived its lease past its ownership check |
| Lifecycle.UnsafeExactly | crates/gitim-daemon/src/lifecycle.rs:79-105 | After every run, a process without the lease can change a file if and only if it is a straggler whose next file exists |
| Lifecycle.RunIsSafeExactly | crates/gitim-daemon/src/lifecycle.rs:79-105 | A whole run has a file change by a process without the lease if and only if a straggler in it removes a file that is there |
| Lifecycle.ProtocolSafety | crates/gitim-daemon/src/lifecycle.rs:79-105 | If no daemon outlives its lease, only the live holder ever touches the files, whoever answers the socket is the holder, and a serving daemon stays named by the pid file until its own cleanup |
| Lifecycle.EarlyReturnIsUnsafe | crates/gitim-daemon/src/main.rs:119-339 | Without that condition there is a run in which a former holder deletes the live holder's pid file |
| Respawn.RespawnSchedule.CandidateFailed | crates/gitim-client/src/daemon.rs:194-197 | The i-th failure puts the next spawn off by the i-th delay |
| Respawn.DelayClosed | crates/gitim-client/src/daemon.rs:12-14 | The i-th delay is min(100·2^i, 2000) ms |
| Respawn.WaitForDaemon | crates/gitim-client/src/daemon.rs:280-317 | For every sequence of observations the loop equals the turn-by-turn specification, in which a turn spawns exactly when asked to, with no unreaped candidate and past the delay from the last reap; only the last spawn can be as late as the deadline, and each outcome has its cause |
| Respawn.SpawnTimes | crates/gitim-client/src/daemon.rs:186-213 | The k-th spawn is no earlier than the start plus the first k delays |
| Respawn.SpawnBound | crates/gitim-client/src/daemon.rs:273-317 | A 15 s call spawns at most 12 candidates, 11 if no spawn is as late as the deadline |
| Respawn.RespawnsInTime | crates/gitim-client/src/daemon.rs:280-317 | The other half of the throttle: if candidates die at once and turns are at most g apart, the k-th spawn happens no later than the start plus the first k delays plus 2k + 1 gaps |
| GitTrees.MoveBack | crates/gitim-sync/src/git.rs:1110-1113 | Moving a directory to a free place and back undoes itself |
| GitTrees.MoveOverlay | crates/gitim-sync/src/git.rs:507-526 | Staging at the new place and moving back is staging at the old place |
| GitTrees.MvBackVacates | crates/gitim-daemon/src/card_handlers.rs:411-414 | Moving an occupied destination back takes its leftovers along |
| Rollback.Repository.MoveCard | crates/gitim-daemon/src/card_handlers.rs:340-423 | Archive and unarchive: refused exactly for an unreadable or foreign card; with a free destination done exactly when every step works, and on every error a clean card leaves working tree, index and HEAD as they were; with leftovers there the card ends up inside them, and a later error never restores the trees |
| Rollback.Repository.ArchiveCard | crates/gitim-daemon/src/card_handlers.rs:305-423 | Refused exactly for a card that is not at its active path, is unreadable, or is neither the author's nor assigned to them; to a free place done exactly when every step works, with the `manual` stamp, the whole directory and the commit, and otherwise a clean repository is unchanged; a failure after nesting into leftovers does change it |
| Rollback.Repository.UnarchiveCard | crates/gitim-daemon/src/card_handlers.rs:452-572 | Refused exactly for a card at its active path or not at its archived one, an inactive channel, an unreadable card or a foreign author; to a free place done exactly when every step works, with the stamp cleared, and otherwise a clean repository is unchanged; a failure after nesting into leftovers does change it |
| Rollback.MoveCommits | crates/gitim-daemon/src/card_handlers.rs:376-423 | A committed move, path by path: nothing at the old place, the new content in the rewritten file, the thread as it was in the working tree, every other file along as it is, and no change outside the two directories |
| Rollback.ArchiveCommits | crates/gitim-daemon/src/card_handlers.rs:37-85 | An archived card is committed at `archive/channels/<channel>/cards/<id>` and no longer at `channels/<channel>/cards/<id>` |
| Rollback.CardRollbackExact | crates/gitim-daemon/src/card_handlers.rs:397-418 | After a failed commit the rollback restores all three trees if and only if the metadata was clean and no uncommitted thread edit had been staged |
| Rollback.ArchiveUnarchive | crates/gitim-daemon/src/card_handlers.rs:452-572 | Archive then unarchive restores every path and content except that `archived_via` is cleared |
| SessionRollback.Send | crates/gitim-daemon/src/quick_session_handlers.rs:649-692 | Send commits both files, or leaves the trees unchanged: always after a failed write, and after a failed commit exactly when neither file had staged changes |
| SessionRollback.SendCommits | crates/gitim-daemon/src/quick_session_handlers.rs:649-682 | A committed send holds the new metadata and thread at the session's two paths and otherwise what was staged before; the working tree changes nowhere else |
| SessionRollback.SendRollbackExact | crates/gitim-daemon/src/quick_session_handlers.rs:226-255 | The rollback restores all three trees, whatever was staged, if and only if index and HEAD agreed on the two files |
| SessionRollback.MoveSession | crates/gitim-daemon/src/quick_session_handlers.rs:996-1055 | With a free target, move is done exactly when every step works and on every error a clean session leaves all three trees as they were; with leftovers there a failure after the move never does |
| SessionRollback.MoveRollbackExact | crates/gitim-daemon/src/quick_session_handlers.rs:1030-1055 | The move's rollback restores all three trees if and only if the metadata had no staged change and no uncommitted thread edit was staged |
| SessionRollback.FireRollbackExact | crates/gitim-daemon/src/cron_engine.rs:420-438 | A failed fire restores the trees if and only if its file had not been staged; otherwise the next commit carries it |
| PushProtocol.RemoteOnlyGrows | crates/gitim-sync/src/git.rs:551-571 | Over every interleaving of any number of clones, the remote's history only grows by a suffix |
| PushProtocol.MergeRegister | crates/gitim-daemon/src/onboard.rs:408-430 | Replaying a registration lands it where the file is absent, drops it where the file is identical, and conflicts otherwise |
| PushProtocol.LandedNeverOverwrites | crates/gitim-daemon/src/onboard.rs:349-435 | Every landed registration added one file at a free path and changed nothing else; a landed init changed no existing file but `.gitignore` |
| PushProtocol.RunKeepsKinds | crates/gitim-sync/src/git.rs:1053-1056 | In every run, every commit of an operation, on the remote, in any HEAD or recorded as left out, keeps the kind, path and content it was made with |
| PushProtocol.LandedRespects | crates/gitim-daemon/src/onboard.rs:349-435 | Wherever a registration has landed, the remote's tree lacked that path before it and gains just that file with that content |
| PushProtocol.PushedMeansLanded | crates/gitim-daemon/src/card_handlers.rs:110-138 | A successful push accounts for every operation of any kind ever committed in the clone: on the remote, discarded with the unpushed work, or left out by a rebase because the remote has the same patch or the tip held every path it changed |
| PushProtocol.DroppedHadItsValues | crates/gitim-sync/src/git.rs:1053-1056 | A commit of any kind left out is on the remote as the same patch or, if a content merge returns ours only when theirs brings nothing new, found its own value at every path it changed |
| PushProtocol.LandsExactly | crates/gitim-daemon/src/card_handlers.rs:110-138 | In every run, after a successful push an operation that was not discarded is on the remote if and only if no rebase of the run met it with the same patch upstream or with every changed path held |
| PushProtocol.DroppedExactly | crates/gitim-sync/src/git.rs:1053-1056 | In a rebase of any length, the k-th commit is left out if and only if the upstream's new commits have the same patch or the tip it comes onto holds every path it changed |
| PushProtocol.UpstreamHadIt | crates/gitim-sync/src/git.rs:1053-1056 | Each path a replayed and dropped commit changed had the commit's value at the upstream tip, unless the path was content-merged or touched by a skipped commit in that rebase |
| PushRetry.PushWithRetry | crates/gitim-daemon/src/card_handlers.rs:110-138 | The loop equals the attempt-by-attempt specification and makes at most three attempts |
| PushRetry.RetryMeans | crates/gitim-daemon/src/card_handlers.rs:110-138 | Whatever others do in between, every outcome keeps the remote's history, and success means HEAD is the remote, every operation is accounted for, and an undiscarded one landed exactly when no rebase left it out |
| PushRetry.RetryGetsThrough | crates/gitim-daemon/src/card_handlers.rs:110-138 | With no failing command and nobody between the first fetch and the second push, the retry ends in a push unless the clone is wedged or its rebase conflicts, and says which |
| PushRetry.PushedButMissing | crates/gitim-daemon/src/onboard.rs:413-430 | Two clones register the same user alike: the second retry loop succeeds and its commit is not on the remote |
| PushRetry.PushedAndGone | crates/gitim-daemon/src/onboard.rs:413-430 | A registration whose twin was pushed and then departed is skipped as already applied: success, with neither the commit nor the file at the remote's tip |
| Onboard.RegisterUser | crates/gitim-daemon/src/onboard.rs:349-435 | A departed or existing handler is refused, exactly then, and changes nothing. Success without a remote sets `users/<handler>.meta.yaml` at the clone's tip and nothing else; with one, every commit of the operation anywhere adds that file with that content, where it landed the remote's tree gained just it, it is accounted for, and if not discarded is there exactly when no rebase left it out; no remote commit is lost |
| Onboard.EnsureRepo | crates/gitim-daemon/src/onboard.rs:254-343 | The handler equals its specification: nothing missing changes nothing; a conflict resets to the last fetched branch or fails without one; success with a remote leaves no unpushed commit and the init accounted for |
| Onboard.ChannelMissingExactly | crates/gitim-daemon/src/onboard.rs:318-339 | With only other clones acting meanwhile, a success leaves the general channel missing if and only if the push conflicted and the clone's remote-tracking branch exists and lacks it |
| Onboard.ReadyWithoutChannel | crates/gitim-daemon/src/onboard.rs:326-339 | Two clones of an uninitialised repository: the second initialisation succeeds and its clone has no general channel |
| Onboard.InitialisedRespects | crates/gitim-daemon/src/onboard.rs:257-316 | The initialised tree keeps every existing file except `.gitignore` |
| Onboard.InitialisedExactly | crates/gitim-daemon/src/onboard.rs:257-316 | Path by path: `.gitignore` is written exactly when it does not ignore yet, the general channel's metadata exactly when it is missing, its thread exactly when both are, and nothing else changes |
| Onboard.ChannelComplete | crates/gitim-daemon/src/onboard.rs:278-316 | Afterwards the channel has its metadata, and its thread too unless only that was missing |
| Reconcile.Workspace.Run | crates/gitim-daemon/src/reconcile.rs:23-166 | Over a complete listing, the pass migrates every orphan card and nothing else; stops exactly at an unreadable card with nothing moved; or fails to commit exactly when some card has no thread, with everything moved |
| Reconcile.ReconcileConserves | crates/gitim-daemon/src/reconcile.rs:34-166 | Every card keeps its id, files and metadata apart from the stamp; the cards with metadata whose channel is archived and not active are archived, no such channel keeps one active (a directory without metadata stays), other cards stay, and a second pass changes nothing |
| FlowRun.Store.HandleNodeSet | crates/gitim-daemon/src/flow_run_handlers.rs:263-358 | The field-by-field update, write, commit and events equal the specification step, for every failure point |
| FlowRun.Store.HandleCancel | crates/gitim-daemon/src/flow_run_handlers.rs:383-424 | Cancelling works exactly on a running run and equals the specification step |
| FlowRun.NodeSetAccepted | crates/gitim-core/src/flow/run.rs:190-206 | An update is accepted if and only if the run is in progress, has the node, and the node keeps its status, is pending, or goes from in progress to an end |
| FlowRun.NodeSetStores | crates/gitim-daemon/src/flow_run_handlers.rs:275-325 | An accepted and written update stores the requested status, the given or old actor and result, start and end times set when due and otherwise kept, leaves every other node, and sets the run's status by its nodes |
| FlowRun.LastFailureFails | crates/gitim-daemon/src/flow_run_handlers.rs:305-316 | If the last unfinished node fails, the run ends failed and, once committed, is announced as such after the node's own update |
| FlowRun.CancelStores | crates/gitim-daemon/src/flow_run_handlers.rs:383-424 | A written cancel changes status and time and nothing else |
| FlowRun.BeginStores | crates/gitim-daemon/src/flow_run_handlers.rs:68-100 | A started run has the template's nodes, all pending and blank, and is completed at once exactly if there are none |
| FlowRun.AllowedIsForward | crates/gitim-core/src/flow/run.rs:190-206 | A node change is allowed exactly when it is none or goes forward |
| FlowRun.FlowInvariant | crates/gitim-daemon/src/flow_run_handlers.rs:263-358 | In every run, whatever fails, run status reflects node statuses, start and end times reflect them too, and completion is announced at most once |
| FlowRun.AnnouncedOnce | crates/gitim-daemon/src/flow_run_handlers.rs:347-358 | Without failed writes or commits, completion is announced exactly once, when the run ends |
| FlowRun.AnnouncedExactly | crates/gitim-daemon/src/flow_run_handlers.rs:322-358 | Whatever fails, a run was announced if and only if it is over and the write and commit of the request that ended it succeeded |
| FlowRun.TerminalIsFinal | crates/gitim-daemon/src/flow_run_handlers.rs:268-273 | A terminal run never changes again |
| FlowRun.AtMostTwicePerNode | crates/gitim-daemon/src/flow_run_handlers.rs:275-300 | n nodes see at most 2n status-changing updates over any run |
| PendingPush.Ledger.OnRenumbered | crates/gitim-daemon/src/state.rs:414-431 | The callback renumbers exactly the matching messages of one channel, in place, as the run's step does |
| PendingPush.Ledger.ConfirmPendingPushes | crates/gitim-daemon/src/state.rs:537-574 | After a confirmed push a message leaves the ledger, its line reported for its channel, if and only if its commit is in the pushed or the included head; the others stay in order, and an unconfirmed push changes nothing |
| PendingPush.PartExactly | crates/gitim-daemon/src/state.rs:552-566 | Each part of the ledger is exactly the messages contained, or not, in their order |
| PendingPush.PendingExactly | crates/gitim-daemon/src/state.rs:537-574 | In every run the ledger holds, in sending order, exactly the sent messages whose commit no later confirming callback's head contained |
| PendingPush.ReportsAreLines | crates/gitim-daemon/src/state.rs:552-573 | One report per channel, listing exactly its confirmed lines in order |
| PendingPush.LedgerConserves | crates/gitim-daemon/src/state.rs:537-574 | Over every run of sends, renumberings and callbacks each sent message is pending or reported, once |
| PendingPush.ReportedWasPushed | crates/gitim-daemon/src/state.rs:552-566 | A message is reported only after a callback whose pushed or included head contains its commit |
| PendingPush.InTurnIsAtOnce | crates/gitim-daemon/src/state.rs:414-431 | Callbacks in turn equal the simultaneous substitution if and only if none produces a number a later one moves |
| PendingPush.DescendingIsSafe | crates/gitim-daemon/src/state.rs:414-431 | Delivered from the highest line down, every batch is right |
| PendingPush.AscendingIsSafeIff | crates/gitim-sync/src/sync_loop.rs:1654-1659 | Delivered lowest first, as the sync loop does, a batch of k lines moved by d is right if and only if d ≥ k |
| PendingPush.TwoMessagesCollide | crates/gitim-sync/src/sync_loop.rs:1654-1659 | Two messages on lines 5 and 6 moved by one both end on line 7 |
| Timers.PartitionFired | crates/gitim-core/src/timer.rs:144-156 | The halves are the due and the other timers, each stably sorted |
| Timers.PartitionExactly | crates/gitim-core/src/timer.rs:144-156 | The fired half holds exactly the timers whose time has come, as often as the list does, the other half the rest, both in order of due time |
| Timers.SortStable | crates/gitim-core/src/timer.rs:144-156 | Any selection of the sorted list is the sorted selection |
| Timers.EqualsKeepOrder | crates/gitim-core/src/timer.rs:144-156 | Timers due at the same instant keep their registration order |
| Timers.PeekTellsPop | crates/gitim-core/src/timer.rs:269-272 | A pop finds something exactly when the peeked due time has come |
| Timers.PeekIsEarliest | crates/gitim-core/src/timer.rs:269-272 | Peeking gives the earliest due time, and none exactly for an empty list |
| Timers.ContainsExactly | crates/gitim-core/src/timer.rs:113-119 | A needle matches an id if and only if the id is the needle with something, or nothing, on either side |
| Timers.ChosenExactly | crates/gitim-core/src/timer.rs:113-139 | No match, one removal or an ambiguity of n means that none, one or n > 1 of the ids hold the needle |
| Timers.ChosenIsUnique | crates/gitim-core/src/timer.rs:113-139 | Cancel removes a timer exactly when it is the only one whose id contains the needle |
| Timers.FullIdIsExact | crates/gitim-core/src/timer.rs:113-139 | With distinct ids of equal length a full id cancels exactly its own timer |
| Timers.Store.PopFiredTimers | crates/gitim-core/src/timer.rs:250-264 | Pop returns the due timers and keeps the rest as the ledger's step does, or reports the failed write and changes nothing |
| Timers.Store.CancelTimer | crates/gitim-core/src/timer.rs:294-301 | Cancel removes the one matching timer and nothing else, or says why not, or reports the failed write |
| Timers.Store.RegisterTimer | crates/gitim-core/src/timer.rs:275-291 | Registration succeeds exactly below the cap with an anchor and a working write, and is the ledger's step |
| Timers.LedgerConserves | crates/gitim-core/src/timer.rs:250-301 | Over every run each registered timer is pending, popped or cancelled, once; at most three are pending; none popped early |
| Recipients.ComputeRecipients | crates/gitim-core/src/recipients.rs:22-59 | On any message list, cyclic or broken, the walk ends and returns exactly owner, mentions and everyone on the reachable chain, sorted without duplicates |
| Recipients.ReplyReachesThread | crates/gitim-core/src/recipients.rs:33-51 | A reply reaches its parent's author and everyone its parent reached |
| Filenames.StemRoundTrip | crates/gitim-daemon/src/cron_paths.rs:26-49 | Every whole second of years 0000 to 9999 survives the trip through a filename |
| Filenames.StemText | crates/gitim-daemon/src/cron_paths.rs:39-49 | A stem is `YYYY-MM-DDTHH-MM-SSZ`, character by character |
| Filenames.StemOrder | crates/gitim-daemon/src/cron_paths.rs:46-49 | Lexicographic order of stems is chronological order |
| Filenames.DmStems | crates/gitim-core/src/dm.rs:5-24 | DM stems are symmetric, parse back to the sorted pair and belong to one unordered pair of handlers only |
| Filenames.ParseDmExactly | crates/gitim-core/src/dm.rs:16-24 | Any name parses as a pair if and only if it is the two joined by its first double hyphen, neither empty |

## Left out

- The sync loop beyond its renumber callbacks, epoch rotation, channel archive, depart, links, card and DM
  recipients, HTTP, sockets, CLI and providers: easy members or code whose properties need the network.
- Clocks, randomness, file and network failures are parameters: each operation takes what it observed or
  which of its steps failed. A failed step is taken to have no other effect, and rollback steps to succeed.
- Schedules are an abstract `next` function that finds the least occurrence; time zones and croner are not
  part of this model. Calendar instants are structured fields.
- Renumber.ResolveKeepsBothSides: line numbers stay below 2^64; wrap-around beyond that is not modelled.
- Calendar: instants count from the start of the year 0000; the engine only uses differences.
- Filenames.StemRoundTrip: the parser is modelled on the canonical shape; the other spellings RFC 3339
  allows (fractions, offsets, lower case, leap seconds) read as no match.
- Rollback.Repository.MoveCard: nothing is promised for a destination that is gone from the working tree but
  still in the index or HEAD, and empty leftover directories are not represented.
- CronRuns: an edit keeps creation instant and target, as the source's toggle does; the prompt is not
  modelled, so a fire already in HEAD is taken to be the same file.
- Event metadata is a text line; parsing and rewriting its JSON is a parameter that yields one line.
- QuickSession: permission, id and transition checks, and the membership and mention checks of
  `validate_append`, are not modelled; a later message is any well-formed visible one.
- Lifecycle: the two cleanup tasks of one daemon are one; `is_running`, which has no caller, is not
  modelled.
- PushProtocol: a clone's working tree is taken to agree with its HEAD; content merges and the test whether two
  commits are the same patch are arbitrary functions.
- Quick-session create's own rollback, metadata-only session transitions, and joining the general channel.
- Timers: corrupted files and duration parsing are not modelled; `timers.json` is taken to be intact.
- Content of the fired cron message, and the card, channel and user metadata fields nothing here depends on.

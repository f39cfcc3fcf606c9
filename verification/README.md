# OpenBot: protocol and data proofs

A Dafny model of the parts of OpenBot whose correctness depends on order, concurrency or exact text
handling, with proofs about every input and every run. Each file below is one component.

| files | component |
|---|---|
| `TurnWatchdog`, `StallProtocol`, `StallRuns`, `StallTurns`, `StallGuard` | the watch on a Bot's stream: pump, timer, reader and Bot racing over one relay |
| `FileTree`, `Workspace`, `WorkspaceConfinement`, `WorkspaceOutcomes`, `WorkspaceList`, `WorkspaceListOrder`, `WorkspaceListCut` | where a Bot's read, write or listing lands, on a disk with any links, and what it comes to |
| `AriaSnapshot`, `AriaElements`, `AriaParts`, `AriaOrder`, `JsText` | the descriptor scanner and the bounded walk of a page's accessibility tree |
| `Names`, `Supervisor`, `SupervisorLoops` | concurrent `ensure`, `stop` and `reset` against a Docker daemon |
| `BrowserEviction`, `BrowserPool`, `SingleFlight`, `PoolPages`, `Profiles` | the capped pool of browsers and its single-flight launches |
| `Roster`, `RosterList`, `Activity`, `AuditTrail` | keyset paging of the channel roster and of the audit trail, the roster's regrouped join, the last-message register |
| `RunEvents`, `RunCalls`, `RunTurns` | what one agent run sends, and how its turns are routed |
| `ShellOutput` | the tail buffer of a command's output |
| `ThreadIdentity` | minted thread ids |

## How it is built

Code that runs between two awaits is one atomic step. A component with several actors is a state, an
`Action`, `Enabled` and `Step`; a `Run` is any sequence of enabled steps, so a lemma about a run is about
every interleaving. Code that updates objects is also written as a class (`StallGuard`, `TurnWatchdog`,
`Profiles`, `Supervisor`, `Workspace`, `Listing`, `Snapshot`, `Collector`, `Channel`, `ThreadIdentity`),
each of whose methods is proved to make exactly the step, or compute exactly the function, that the
lemmas are about.

What the model takes as given:

- The clock never goes back. Ids of watched streams are fresh.
- Web Streams: a write to an open stream is queued, a close waits behind the writes, an abort or a cancel
  drops what was not taken, and each of them does nothing on a stream that is no longer open.
- The disk does not change during one workspace call other than by that call, and `mkdir -p` does not
  follow a dangling link. A lookup follows at most 40 links.
- A command's output has one byte a character.
- While supervisor requests run, containers of others are neither made nor taken away; ours may start,
  stop, move or vanish by themselves. The daemon may fail any call, before it takes effect or after.
- `sha256` is any function to 32 bytes. Random bytes, clock readings, the health of a browser, the order
  of a directory's names and the daemon's replies are parameters.
- Channel and agent ids are represented by their rank in the database's order, stored times in
  microseconds.

## Where the code does less than its comments say

Each of these is kept as the code has it, with the exact condition proved.

- A roster or audit cursor is written with `toISOString`, in milliseconds, while Postgres keeps
  microseconds. A channel whose time lies in the same millisecond as the last of a page, and above the cursor, is never
  shown (`SubMillisecondRowIsSkipped`). A walk is complete exactly when no page boundary has such a
  neighbour (`RosterWalk`), which whole milliseconds guarantee (`MillisecondsAreClear`).
- `COMPUTER_MAX_BROWSERS` may be a fraction, and `slice` truncates: the pool then fills to the cap's
  ceiling, less than one above it. Every run keeps to a cap exactly when it is a whole number
  (`CapKeptExactlyWhen`); with a half, one browser is already too many (`HalfCapExceeded`).
- A call that has closed a half-dead browser does not look at the launches in flight again before it
  starts its own. Two such calls start two browsers (`HalfDeadStartsTwo`); a run keeps one launch a Bot
  exactly when no call re-enters during somebody else's launch (`SingleFlightExactlyWhen`).
- A listing that has just reached its limit says it was cut when only a link comes after
  (`CutExactlyWhen`); `LinkCutsListing` and `ListWorkspace` show a disk on which it does.
- Calls of a model turn without ids go by their tool's name. Two of one tool in one turn get a single
  result, the first call's, next to the second call's arguments (`IdLessPair`). A turn sends every call's
  own result exactly when no two of its calls share a key (`OwnResultsExactlyWhen`), and a finished run
  reports every call exactly when none takes the place of one still waiting (`AllReportedExactlyWhen`).
- Derived Docker names are said to stay under 255 characters. With a Bot id of up to 128 they do exactly
  when the namespace has at most 116, and one of up to 128 is accepted (`NamesFitExactlyWhen`).
- Two activity reports with the same time are kept first come, first served: they commute exactly when
  their times differ, they are equal, or neither is newer than what is stored (`CommuteExactlyWhen`).

## Model

| member | source | states |
|---|---|---|
| StallRuns.RelayFaithful | server/src/channels/stall-guard.ts:196-322 | In every run, what the reader has taken is a prefix of the Bot's chunks in order; only a stall adds something, one RUN_ERROR at the end of a stream that can carry one. |
| StallRuns.ClosedDeliversAll | server/src/channels/stall-guard.ts:304-322 | A stream that closed unbroken delivered all of the Bot's chunks, or, after a stall, every chunk read and then the one sentence. |
| StallRuns.StallEndsAfterWhatWasRead | server/src/channels/stall-guard.ts:196-240 | When the timer gives a stream up, every chunk read by then has already reached the reader, unless the reader broke the stream; then comes the one sentence and the close. |
| StallRuns.FinishedExactlyOnce | server/src/channels/stall-guard.ts:170-177 | A stream has at most one ending, is watched exactly until it has it, has one once its pump is done, and was reported at most once and only by a stall. |
| StallRuns.EndedOnce | server/src/channels/stall-guard.ts:162-240 | After its ending a stream gets no second ending, no report and nothing more into its relay, whatever happens. |
| StallRuns.FinishReadsAll | server/src/channels/stall-guard.ts:304-322 | A clean close is made only when every chunk the Bot sent has been read. |
| StallRuns.CleanEndCloses | server/src/channels/stall-guard.ts:304-322 | When the pump sees the Bot's clean end on a stream still watched and not broken by its reader, it makes the one ending, a close with every chunk read, and the relay holds all that was sent and is closing. |
| StallRuns.FailureAborts | server/src/channels/stall-guard.ts:304-322 | When the pump of a watched stream sees a failure, or its handover is refused, it leaves with an abort: the one ending, and a relay that keeps only what was taken. |
| StallRuns.BreaksForACause | server/src/channels/stall-guard.ts:304-322 | In every run a relay is broken only after the Bot failed or the reader cancelled. |
| StallRuns.CleanRunDeliversAll | server/src/channels/stall-guard.ts:304-322 | With no failure, no cancel and no stall, a stream whose pump has left was closed with every chunk of the Bot in it, and a reader that has kept up has them all. |
| StallRuns.SentIsSaid | server/src/channels/stall-guard.ts:242-288 | What a stream counts as the Bot's chunks is what the run's actions had the Bot say on it, in order, and it can carry a sentence as it was opened. |
| StallRuns.IdleTimerStops | server/src/channels/stall-guard.ts:147-160 | After a firing the timer is set exactly when something is still watched. |
| StallTurns.CleanTurnHappens | server/src/channels/stall-guard.ts:242-322 | For every conversation there is a run that relays it whole and closes. |
| StallTurns.StalledTurnHappens | server/src/channels/stall-guard.ts:196-240 | For every conversation there is a run that relays it, falls silent for the limit, and is ended by the sweep with its one sentence, the Bot cancelled and the silence reported. |
| StallRuns.MapsAgree | server/src/channels/turn-watchdog.ts:130-195 | At every step boundary the guard and the watchdog hold the same ids, each unpaused exactly while its pump waits on the Bot. |
| StallRuns.NoFalseStall | server/src/channels/turn-watchdog.ts:203-239 | A stream given up had its pump waiting on the Bot without a break, since its opening or its last completed handover, for exactly the reported time, which is at least the limit; the report names the stream and counts its chunks. |
| StallRuns.WaitStart | server/src/channels/turn-watchdog.ts:152-190 | Behind an unpaused entry stands the step at which its clock began, and the pump has been waiting ever since. |
| StallRuns.WaitStartUnique | server/src/channels/turn-watchdog.ts:152-190 | There is only one such step, so the reported silence is that stretch and no other. |
| StallRuns.NoMissedStall | server/src/channels/stall-guard.ts:104-160 | With the timer on time and never stopped, no wait on the Bot lasts longer than the limit plus one sweep interval before the stream is ended. |
| StallRuns.RunArmed | server/src/channels/stall-guard.ts:147-160 | Unless stopped, the timer is running whenever anything is watched. |
| StallProtocol.SweepIntervalFor | server/src/channels/stall-guard.ts:104-106 | The sweep interval is the whole quarter of the limit, but 50 ms for a limit below 200 and 1000 ms for one from 4000. |
| StallProtocol.StepInv | server/src/channels/stall-guard.ts:128-322 | Every step keeps the invariant tying the two maps, the relay's log, the pump's place and the endings together. |
| StallProtocol.SweptInv | server/src/channels/stall-guard.ts:196-240 | One firing of the timer, over all streams at once, keeps that invariant. |
| StallGuards.StallGuard.constructor | server/src/channels/stall-guard.ts:128-146 | A new guard watches nothing and has no timer. |
| StallGuards.StallGuard.Arm | server/src/channels/stall-guard.ts:147-154 | Arms the timer once. |
| StallGuards.StallGuard.Disarm | server/src/channels/stall-guard.ts:156-160 | Takes the timer away. |
| StallGuards.StallGuard.Release | server/src/channels/stall-guard.ts:170-177 | The first caller gets the stream, and both maps lose it; every later caller gets nothing. |
| StallGuards.StallGuard.GiveUpOn | server/src/channels/stall-guard.ts:196-240 | Ends a stream as stalled exactly when nobody has ended it. |
| StallGuards.StallGuard.Watch | server/src/channels/stall-guard.ts:242-288 | Opening a watched relay is the protocol's step. |
| StallGuards.StallGuard.PumpReadChunk | server/src/channels/stall-guard.ts:304-322 | The pump's stretch after a read is the protocol's step. |
| StallGuards.StallGuard.PumpWroteChunk | server/src/channels/stall-guard.ts:304-322 | The pump's stretch after a completed handover is the protocol's step. |
| StallGuards.StallGuard.PumpLeaves | server/src/channels/stall-guard.ts:304-322 | The pump's leaving, by close or abort, is the protocol's: it ends the stream only if it was allowed to release it. What each kind leaves behind is `CleanEndCloses` and `FailureAborts`. |
| StallGuards.StallGuard.SweepStream | server/src/channels/turn-watchdog.ts:203-239 | One turn of the sweep over one stream. |
| StallGuards.StallGuard.Sweep | server/src/channels/turn-watchdog.ts:203-239 | The loop over all streams, in any order, is the simultaneous sweep. |
| StallGuards.StallGuard.OnInterval | server/src/channels/stall-guard.ts:147-160 | One firing of the timer is the protocol's step, and disarms it when nothing is left. |
| StallGuards.SweptOneMore | server/src/channels/turn-watchdog.ts:203-239 | Sweeping one stream more is deleting its watch and giving it up, if it is silent. |
| TurnWatchdogs.TurnWatchdog.Open | server/src/channels/turn-watchdog.ts:130-138 | Starts, or restarts, a stream's clock, unless the watchdog is off. |
| TurnWatchdogs.TurnWatchdog.Record | server/src/channels/turn-watchdog.ts:152-157 | Counts a chunk and restarts the clock of a known stream. |
| TurnWatchdogs.TurnWatchdog.Pause | server/src/channels/turn-watchdog.ts:173-177 | Takes a stream's silence off the Bot. |
| TurnWatchdogs.TurnWatchdog.Resume | server/src/channels/turn-watchdog.ts:185-190 | Puts it back on, from now. |
| TurnWatchdogs.TurnWatchdog.Close | server/src/channels/turn-watchdog.ts:193-195 | Forgets a stream. |
| TurnWatchdogs.TurnWatchdog.SweepOne | server/src/channels/turn-watchdog.ts:203-239 | Reports a stream exactly when it is unpaused and silent for the limit, with the length of that silence, and takes it off the watch first. |
| FileTrees.WalkIsReal | agent-computer/src/workspace.ts:125-143 | A lookup that succeeds ends at a real entry, never a link, on any disk. |
| FileTrees.WalkAppend | agent-computer/src/workspace.ts:131-143 | Looking up a path is looking up its directory and then the rest from there. |
| FileTrees.MakeDirsSplit | agent-computer/src/workspace.ts:300-301 | When `mkdir -p` succeeds on a path that did not resolve, everything it makes hangs off the end of the longest part that did. |
| WorkspaceConfinement.WriteIsConfined | agent-computer/src/workspace.ts:103-187 | For every disk and every string, whatever a write makes or changes lies, fully resolved, below the real root, also when it fails half way; a write that succeeds changed one file, which holds the contents alone, or after the old bytes when it appends to a file that was there, and otherwise only made the directories leading to it. |
| WorkspaceConfinement.ReadIsConfined | agent-computer/src/workspace.ts:103-145 | A read is answered only from a real entry at or below the real root. |
| WorkspaceConfinement.ReadBack | agent-computer/src/workspace.ts:254-307 | When the requested name is not itself a link, reading the same string after a successful write finds the file just written. |
| WorkspaceConfinement.ChainSettles | agent-computer/src/workspace.ts:335-366 | The walk over links succeeds exactly when the chain ends within 32 of them. |
| WorkspaceConfinement.TargetIsBelow | agent-computer/src/workspace.ts:107-127 | A string that passes the textual checks names a plain path at or below the root. |
| WorkspaceConfinement.InsideIsBelow | agent-computer/src/workspace.ts:314-327 | The relative-path test is exactly the prefix order on paths, so a shared prefix of a name never passes. |
| WorkspaceConfinement.NearestIsLongest | agent-computer/src/workspace.ts:369-387 | The closest existing ancestor is where the longest resolving part of the path leads. |
| WorkspaceOutcomes.RefusedExactlyWhen | agent-computer/src/workspace.ts:107-124 | A string is refused by its text exactly when it is blank, begins, trimmed, with a slash, or has `..` between slashes of either kind. |
| WorkspaceOutcomes.TargetIs | agent-computer/src/workspace.ts:107-127 | Every other string names, below the root, its pieces between slashes, without the empty ones and the dots. |
| WorkspaceOutcomes.ReadIs | agent-computer/src/workspace.ts:254-282 | Every read, on any disk: a missing workspace, a refused string, a name that leads nowhere, outside or to a directory each has its error, and a file inside gives its first `readBytes` bytes, whether there were more and how many there are. |
| WorkspaceOutcomes.ReadsWhatIsThere | agent-computer/src/workspace.ts:254-282 | What stands, as no link, where an accepted string says is what is read. |
| WorkspaceOutcomes.PlainWriteLands | agent-computer/src/workspace.ts:285-307 | Where nothing but directories, and at the end a file or nothing, stands in the way, a write within its limit succeeds and lands where its string says, with the bytes spelled out: the contents, or the old bytes and the contents. |
| WorkspaceOutcomes.LinkedWriteLands | agent-computer/src/workspace.ts:166-187 | A write to a link that names a file, or nothing yet, in a directory inside succeeds, and its bytes land there. |
| WorkspaceOutcomes.WriteAppendRead | agent-computer/src/workspace.ts:254-307 | Writing, then appending, then reading a name that is no link gives the two contents one after the other, up to the read limit. |
| WorkspaceOutcomes.NothingIsWritten | agent-computer/src/workspace.ts:296-300 | Too much, a refused string and a missing workspace are refused in this order, with their errors, and the disk stays. |
| WorkspaceOutcomes.EscapesAreRefused | agent-computer/src/workspace.ts:125-187 | When the name's directory resolves outside, its links do not settle, or the end of its links is in no directory inside, a write is refused and the disk stays. |
| Workspaces.Workspace.NearestExistingAncestor | agent-computer/src/workspace.ts:369-387 | The loop ends on every disk and computes the specified ancestor or refusal. |
| Workspaces.Workspace.WriteDestination | agent-computer/src/workspace.ts:351-366 | The loop over links computes the specified destination or refusal. |
| Workspaces.Workspace.ResolvePath | agent-computer/src/workspace.ts:103-187 | All the checks in their order, for reads and for writes. |
| Workspaces.Workspace.Write | agent-computer/src/workspace.ts:285-307 | The disk afterwards, the result and the error of a write. |
| Workspaces.Workspace.Read | agent-computer/src/workspace.ts:254-282 | At most `readBytes` bytes of the file, whether there were more, and how many there are; or the refusal. |
| WorkspaceLists.List | agent-computer/src/workspace.ts:199-251 | The first `limit` entries of everything below the start, depth first, from a start that is inside the root. |
| WorkspaceLists.ListingIsWhole | agent-computer/src/workspace.ts:223-247 | Without its limit a listing is exactly the folders and files below its start, each once; a link is neither listed nor walked through. |
| ListingOrders.ListingInOrder | agent-computer/src/workspace.ts:223-247 | Its lines stand in depth-first order: a folder before what is in it, and siblings in the order the filesystem names them, each line telling its kind and size. |
| WorkspaceLists.StartIsAsked | agent-computer/src/workspace.ts:204-218 | A listing starts at the workspace for a blank string or a dot, and otherwise where the string says. |
| WorkspaceLists.CutExactlyWhen | agent-computer/src/workspace.ts:227-239 | On every disk, the walk of a directory sets `truncated` exactly when it left an entry out, or the limit was just reached and a link came last. |
| CutListings.LinkCutsListing | agent-computer/src/workspace.ts:227-239 | A workspace of one file and one link, limit one: the only entry is listed, and `truncated` is set. |
| CutListings.ListWorkspace | agent-computer/src/workspace.ts:199-251 | On that disk, `list` itself returns that. |
| WorkspaceLists.Listing.Walk | agent-computer/src/workspace.ts:223-247 | The recursive walk moves its two variables exactly as meeting the items of the depth-first list one by one would. |
| AriaSnapshots.ParseInvertsPrint | agent-computer/src/aria-snapshot.ts:92-157 | Parsing a printed descriptor returns its role, its name, whatever quotes, backslashes and brackets it holds, and its flags. |
| AriaSnapshots.AddedExactly | agent-computer/src/aria-snapshot.ts:133-151 | Flags with distinct keys come back as exactly those printed. |
| AriaParts.ParseInvertsParts | agent-computer/src/aria-snapshot.ts:92-157 | Whatever follows the role, names, flags and other text in any order: the last name counts, every flag is kept and the last of a key counts, and the rest is skipped. |
| AriaElements.RoleIs | agent-computer/src/aria-snapshot.ts:92-107 | A text has a descriptor exactly when, trimmed, it begins with something else than a space, quote or bracket, and its role is all there is before the first of these. |
| AriaElements.UnclosedName | agent-computer/src/aria-snapshot.ts:115-130 | A name without its closing quote runs to the end of the text. |
| AriaElements.UnclosedFlag | agent-computer/src/aria-snapshot.ts:133-151 | So does a flag without its closing bracket. |
| AriaSnapshots.ParseDescriptor | agent-computer/src/aria-snapshot.ts:92-157 | The scanner ends in range on every input, unterminated quotes and brackets included, and computes the specified descriptor. |
| AriaSnapshots.ScanParts | agent-computer/src/aria-snapshot.ts:109-154 | The loop over names and flags gives the last name and every flag, and skips the rest. |
| AriaSnapshots.ScanQuoted | agent-computer/src/aria-snapshot.ts:115-130 | The loop over a quoted name undoes its escapes. |
| AriaSnapshots.ScanBracket | agent-computer/src/aria-snapshot.ts:133-140 | The loop over a bracketed flag takes the text up to its end. |
| AriaSnapshots.ParseAriaSnapshot | agent-computer/src/aria-snapshot.ts:197-252 | The elements are the first 200 of the depth-first list of actionable ones, and `truncated` says exactly whether there were more. |
| AriaElements.PrintedElement | agent-computer/src/aria-snapshot.ts:160-194 | What the element of a printed descriptor is, field by field: its reference, role, first 200 characters of name and value, and whether it is disabled and checked. |
| AriaElements.PrintedNothing | agent-computer/src/aria-snapshot.ts:160-194 | A printed descriptor of any other role, or without a reference, gives no element. |
| AriaElements.FlatIsEverything | agent-computer/src/aria-snapshot.ts:212-249 | The elements of a tree are exactly those of the descriptors found on some way down it. |
| AriaOrders.FlatInOrder | agent-computer/src/aria-snapshot.ts:212-249 | They stand in the order of their places in the tree, each place once: an entry before what is in it. |
| AriaSnapshots.Snapshot.Push | agent-computer/src/aria-snapshot.ts:203-211 | Keeps the list bounded and notes what did not fit. |
| AriaSnapshots.Snapshot.PushIfActionable | agent-computer/src/aria-snapshot.ts:203-226 | Adds the element of a descriptor that is actionable, and nothing otherwise. |
| AriaSnapshots.Snapshot.Walk | agent-computer/src/aria-snapshot.ts:212-249 | The truncating walk of a node is the bounded list of everything in it. |
| Names.NamesSeparate | supervisor/src/names.ts:71-98 | In one namespace two Bots share no container and no volume, and nobody's profile volume is anybody's workspace volume. |
| Names.NamesAreLegal | supervisor/src/names.ts:71-98 | In any namespace the supervisor starts with, every name made is one Docker takes, begins with the namespace and what it names, a computer, a profile or a workspace, ends with its Bot's id, and holds no slash, colon or dot. |
| Names.NamesFitExactlyWhen | supervisor/src/names.ts:15-43 | The names of all acceptable Bot ids stay within 255 characters exactly when the namespace has at most 116. |
| Supervisors.ForeignIsLeftAlone | supervisor/src/docker.ts:128-186 | In every interleaving a container without our labels is never started, stopped or removed, every ended `ensure` of its name ended in an error, and `stop` and `reset` did nothing. |
| Supervisors.BotsAreIsolated | supervisor/src/docker.ts:327-477 | A request for one Bot changes no container and no volume of another Bot. |
| Supervisors.WorkspacesStay | supervisor/src/docker.ts:454-477 | No verb ever removes a workspace volume. |
| Supervisors.ConcurrentEnsuresAgree | supervisor/src/docker.ts:327-431 | With no stop or reset, any number of concurrent ensures of a Bot create at most one container, and all that return report it running at the same address. |
| Supervisors.RequestsEnd | supervisor/src/docker.ts:327-431 | Every call brings its request nearer its end, at most 21 calls in all; an `ensure` creates at most twice and never reaches the throw after its loop. |
| Supervisors.CallTouches | supervisor/src/docker.ts:327-477 | One call changes nothing of the daemon but its own request's names, and nothing of another's container. |
| Supervisors.CallActsOnOwn | supervisor/src/docker.ts:170-186 | A request comes to act on a container only through a look that found it ours, or by making it. |
| Supervisors.EnsureKeeps | supervisor/src/docker.ts:327-431 | No call of `ensure` removes or stops its container, or moves it while it runs. |
| Supervisors.OursExactlyWhen | supervisor/src/docker.ts:128-131 | A container is ours exactly when it carries the owner's label and our namespace's, which the default namespace's may lack. |
| Supervisors.EnsuredOnlyWhenAnswered | supervisor/src/docker.ts:218-237 | In every run a request becomes ensured only by a wait that was answered, and fails as not answering only by one that was not. |
| Supervisors.StopStops | supervisor/src/docker.ts:434-446 | In every run, the call by which `stop` acts, unless the daemon refuses it, leaves its container not running and ours as it was, and takes nothing away. |
| Supervisors.ResetRemoves | supervisor/src/docker.ts:454-477 | In every run, the calls by which `reset` acts, unless the daemon refuses them, take away the container and then the profile volume, and nothing else. |
| SupervisorLoops.DrivenEnds | supervisor/src/docker.ts:327-477 | A request driven to its end has ended as its verb may, `ensure` never by falling out of its loop. |
| SupervisorLoops.DrivenIsARun | supervisor/src/docker.ts:327-477 | What a request comes to by itself is one of the system's runs, so the loops and the interleavings speak of one machine. |
| SupervisorLoops.EndTellsAnswer | supervisor/src/docker.ts:410-427 | An `ensure` that returns was answered in time, and one that fails as not answering was not. |
| SupervisorLoops.BringsUp | supervisor/src/docker.ts:327-431 | On a daemon that answers, but for one container that may be gone when it is to start, and with the name free or ours, `ensure` leaves the container running and ours, and returns it as running at its port exactly when the wait is answered. |
| SupervisorLoops.MakesAll | supervisor/src/docker.ts:334-380 | Of a Bot without a container, that leaves both volumes there and a container with all three labels. |
| SupervisorLoops.HeldIsRefused | supervisor/src/docker.ts:356-380 | On a daemon that answers, a name held by another's container is refused as held, and no container changes. |
| SupervisorLoops.Supervisor.Ensure | supervisor/src/docker.ts:327-431 | The loop as written makes the transition system's calls, for all replies. It returns a computer only if a look before the deadline answered, and fails as not answering only if none did; on an obliging daemon with the name free or ours it ends in one of these two with the container running, and a name that is another's is refused. |
| SupervisorLoops.Supervisor.Turn | supervisor/src/docker.ts:331-427 | One turn of the loop, ended or going round again with one attempt less. |
| SupervisorLoops.Supervisor.Settle | supervisor/src/docker.ts:410-427 | The state is read before the wait; it is reported if the wait is answered, and the failure if it is not. |
| SupervisorLoops.Supervisor.Build | supervisor/src/docker.ts:334-380 | The volumes, then the container, with a held name accepted only when one of ours holds it. |
| SupervisorLoops.Supervisor.Start | supervisor/src/docker.ts:382-408 | Starting, or going round again when the container is gone and an attempt is left. |
| SupervisorLoops.WaitUntilAnswering | supervisor/src/docker.ts:206-237 | The wait succeeds exactly when some look before the deadline was an answer, and otherwise ends as a failure at the deadline. |
| SupervisorLoops.Supervisor.Stop | supervisor/src/docker.ts:434-446 | `stop` makes the transition system's calls: when it says it acted, ours is there, not running, its labels and port as they were, and nothing else has changed; absent or another's, nothing has. |
| SupervisorLoops.Supervisor.Reset | supervisor/src/docker.ts:454-477 | `reset` makes the transition system's calls: when it says it acted, the container and its profile volume are gone, unless the volume is in use, and nothing else; absent or another's, nothing has. |
| BrowserEvictions.EvictsLeastRecentlyUsed | agent-computer/src/browser-eviction.ts:29-40 | Every browser chosen was used less recently than every one that stays, or as recently and inserted earlier. |
| BrowserEvictions.CapIsMetExactlyWhen | agent-computer/src/browser-eviction.ts:29-40 | Evicting meets the cap exactly when the count already did or the cap is a whole number. |
| BrowserEvictions.KeptIsCeiling | agent-computer/src/browser-eviction.ts:29-40 | Over the cap, what stays is the cap's ceiling. |
| BrowserEvictions.IdleAreChosen | agent-computer/src/browser-eviction.ts:49-60 | An idle sweep chooses exactly the browsers untouched for the timeout. |
| BrowserPools.CapHolds | agent-computer/src/profiles.ts:217-341 | At every suspension point of every run at most the cap's ceiling of browsers are in the map, which is the cap itself when it is whole. |
| BrowserPools.CapKeptExactlyWhen | agent-computer/src/profiles.ts:155-178 | For every positive cap, all its runs keep to it exactly when it is a whole number; otherwise a run fills the pool to the ceiling. |
| BrowserPools.HalfCapExceeded | agent-computer/src/profiles.ts:155-178 | With a cap of one half, a run of one request holds one browser. |
| BrowserPools.LaunchKeepsCap | agent-computer/src/profiles.ts:321-330 | Insert and first eviction are one step: at most one victim, the least recently used, never the Bot just launched, and the cap holds again at once. |
| SingleFlight.SingleFlightExactlyWhen | agent-computer/src/profiles.ts:277-341 | A run has at most one launch in flight a Bot throughout exactly when no call resumes from closing a half-dead entry into somebody else's launch. |
| SingleFlight.SingleFlightUnlessHalfDead | agent-computer/src/profiles.ts:277-341 | That is so in every run in which no entry is found half-dead. |
| SingleFlight.ArrivalsShareTheLaunch | agent-computer/src/profiles.ts:282-283 | A call arriving during a launch waits for it, and whatever happens next is told exactly how it ended, with the same page. |
| SingleFlight.NothingPinned | agent-computer/src/profiles.ts:333-340 | `starting` holds a Bot exactly while a launch of it is in flight, so a failed launch pins nothing; and a browser that comes up never replaces a running one. |
| SingleFlight.HalfDeadStartsTwo | agent-computer/src/profiles.ts:294-299 | A run in which two calls find the same half-dead entry and each starts a browser. |
| PoolPages.PageIsOfItsBot | agent-computer/src/profiles.ts:277-341 | In every run, whatever a call of a Bot is holding, a launch it owns or awaits or the page it got, is of that Bot. |
| PoolPages.HealthyIsHandedOut | agent-computer/src/profiles.ts:284-292 | A call that finds its Bot's healthy entry gets that entry's page, marks it used now, and touches nothing else. |
| PoolPages.ColdIsLaunched | agent-computer/src/profiles.ts:300-333 | A call that finds neither an entry nor a launch begins one, and the next calls will find it. |
| PoolPages.EndsAsItOpened | agent-computer/src/profiles.ts:300-341 | In every run a launch ends well only if its browser opened, and badly only if it failed to. |
| PoolPages.PagesCameUp | agent-computer/src/profiles.ts:277-341 | In every run every page in the map, and every page a call got, is of a launch whose browser opened. |
| PoolPages.CallersAreServed | agent-computer/src/profiles.ts:277-341 | There is a run in which the first call launches, a second joins it, both get the page, and a third gets it at once. |
| ProfilesStore.Profiles.constructor | agent-computer/src/profiles.ts:191-204 | A new pool is empty. |
| ProfilesStore.Profiles.Page | agent-computer/src/profiles.ts:277-299 | `page` up to its first await is the protocol's step. |
| ProfilesStore.Profiles.HalfDeadClosed | agent-computer/src/profiles.ts:294-333 | The stretch after closing a half-dead entry is the protocol's step. |
| ProfilesStore.Profiles.Opened | agent-computer/src/profiles.ts:319-330 | The stretch from an opened browser to the first victim's closing is the protocol's step. |
| ProfilesStore.Profiles.VictimClosed | agent-computer/src/profiles.ts:217-237 | The next turn of the loop over victims is the protocol's step. |
| ProfilesStore.Profiles.OwnerHears | agent-computer/src/profiles.ts:334-340 | The launcher's return or throw, with `starting` cleared either way, is the protocol's step. |
| ProfilesStore.Profiles.Stop | agent-computer/src/profiles.ts:349-355 | Takes exactly the Bot's entry out of the map, and says whether there was one. |
| ProfilesStore.Profiles.CloseEverything | agent-computer/src/profiles.ts:409-414 | Leaves the map empty. |
| Rosters.RosterWalk | server/src/channels/routes.ts:537-602 | On an unchanging roster, following the cursor shows matching rows by time and then id, descending, none twice, and then stops; it shows all of them exactly when every page boundary is clear to the millisecond. |
| Rosters.PageOfListing | server/src/channels/routes.ts:558-602 | The limit-plus-one query is the first page of what remains below the cursor, with a cursor exactly when more remains. |
| Rosters.MillisecondsAreClear | server/src/channels/routes.ts:106-127 | With times in whole milliseconds every boundary is clear. |
| Rosters.SubMillisecondRowIsSkipped | server/src/channels/routes.ts:106-127 | Two channels a tenth of a millisecond apart at a boundary: the second is never shown. |
| Rosters.PageLimit | server/src/channels/routes.ts:537-541 | The page size is the number in [1, 200] closest to what was asked for, or to 50. |
| AuditTrails.List | server/src/audit.ts:377-443 | One page of the trail: what the query matches, newest first, below the cursor, with a cursor exactly when there is more; a malformed cursor is refused. |
| AuditTrails.Conditions | server/src/audit.ts:380-400 | The conditions collected one by one hold of exactly the events the query asks for. |
| AuditTrails.TypesAre | server/src/audit.ts:380-383 | A type is asked for exactly when some stretch between commas is it, white space around it aside. |
| AuditTrails.TrailIsWhole | server/src/audit.ts:402-443 | With times in whole milliseconds, following the cursor shows every matching event once, newest first. |
| AuditTrails.AuditLimit | server/src/audit.ts:445-452 | The page size is the number in [1, 100] closest to what was asked for, or to 50. |
| RosterLists.List | server/src/channels/routes.ts:537-680 | One call of `list`: whole channels, in the page's order, and the next cursor. |
| RosterLists.Regroup | server/src/channels/routes.ts:604-680 | The loop over joined rows with its Map computes the regrouping. |
| RosterLists.RegroupIsWhole | server/src/channels/routes.ts:604-680 | Regrouping gives one summary per channel that has an agent, in page order, its agents by position and then by id, active exactly when none is deleted. |
| Activities.Channel.RecordActivity | server/src/channels/routes.ts:742-817 | Refuses strangers and unlinked agents, and otherwise moves the register only forwards. |
| Activities.StoresEarliestLatest | server/src/channels/routes.ts:742-817 | After any reports in any order, what is stored is the earliest-applied with the greatest time; announcements strictly increase and end with it. |
| Activities.ArrivalOrderIrrelevant | server/src/channels/routes.ts:742-817 | With distinct times, the order of arrival does not matter. |
| Activities.CommuteExactlyWhen | server/src/channels/routes.ts:742-817 | Exactly when two reports commute. |
| RunEvents.RunAgent | agent-langgraph/src/index.ts:397-567 | The run with its variables and loops sends exactly the specified events. |
| RunEvents.RunIsWellFormed | agent-langgraph/src/index.ts:397-567 | Whatever the graph says and wherever it fails, a run is RUN_STARTED, complete text messages with distinct ids and complete tool calls that never overlap, and then RUN_ERROR if it failed and RUN_FINISHED if it did not, once and last. |
| RunCalls.EachCallOnce | agent-langgraph/src/index.ts:469-544 | Whatever the ids, all that is reported is calls of the model, each as its start with the name, its arguments and its end. Under each key a finished run reports exactly the calls made less those that took the place of one still waiting, and at least one of them; a failed run no more. |
| RunCalls.AllReportedExactlyWhen | agent-langgraph/src/index.ts:469-544 | A finished run reports every call made exactly when none took the place of one still waiting. |
| RunCalls.DistinctAreReported | agent-langgraph/src/index.ts:469-544 | A key of one call only is reported once. |
| RunCalls.NoWordLost | agent-langgraph/src/index.ts:446-467 | The text sent is the text streamed, all of it and in order, also when the run fails. |
| RunTurns.FilterDropsNothing | agent-langgraph/src/index.ts:347-371 | The tools node's filter drops nothing exactly when every call of the turn is one of the deployment's own. |
| RunTurns.NoTurnHalfRun | agent-langgraph/src/index.ts:343-394 | For every run, finished or failed, cut after any number of events, with or without call ids: the results sent under a key are one for each turn that holds it and whose tools have answered, so from each turn all its keys have a result or none has. |
| RunTurns.AllDone | agent-langgraph/src/index.ts:373-392 | In a whole run the turns whose tools answer are as many as lead the list with at least one call each and only the deployment's own. |
| RunTurns.ToolsExactlyWhen | agent-langgraph/src/index.ts:373-392 | The tools node is entered after a turn exactly when it has at least one call and only calls of the deployment's own. |
| RunTurns.ResultExactlyWhen | agent-langgraph/src/index.ts:373-392 | A run of the whole graph, finished or failed, sends a result under a key exactly when some turn holds it and that turn and all before it are such turns. |
| RunTurns.WholeRunSays | agent-langgraph/src/index.ts:373-392 | The text a whole run sends, and the calls it is asked for, are those of these turns and of the one after them, in order. |
| RunTurns.SurfaceCallsInOrder | agent-langgraph/src/index.ts:531-544 | When the calls of the turn that ends a run have distinct keys, they are announced last, in the model's order and without results. |
| RunTurns.OwnResultsExactlyWhen | agent-langgraph/src/index.ts:481-520 | In every such run, a turn whose tools have answered sent every call's own arguments and own result, in order, exactly when no two of its calls share a key. |
| RunTurns.IdLessPair | agent-langgraph/src/index.ts:363-367 | Two id-less calls of one tool in one turn: one result is sent, the first call's, with the second call's arguments. |
| ShellOutputs.Collect | agent-computer/src/shell.ts:282-301 | For every chunking, what is kept is the last 64 KiB of the stream, marked as cut exactly when there was more. |
| ShellOutputs.Collector.Add | agent-computer/src/shell.ts:282-301 | After every chunk the buffer holds at most 128 KiB, a suffix of everything so far. |
| ShellOutputs.Assemble | agent-computer/src/shell.ts:341-353 | The two streams' tails, and one flag for both. |
| ShellOutputs.WholeOfAppend | agent-computer/src/shell.ts:282-301 | How a stream is split into chunks does not matter. |
| ThreadIdentities.FormatInverts | server/src/channels/thread-identity.ts:51-68 | Reading a printed id gives back its 16 bytes. |
| ThreadIdentities.BytesOfInverts | server/src/channels/thread-identity.ts:51-68 | Printing what was read from a lower-case id gives it back. |
| ThreadIdentities.MintedLayout | server/src/channels/thread-identity.ts:80-88 | Version 8 and the RFC variant (sections 4.1, 4.2 and 5.8 of RFC 9562) are set, the six fingerprint bytes untouched, every other bit random. |
| ThreadIdentities.ThreadIdentity.Mint | server/src/channels/thread-identity.ts:80-88 | The buffer, written in place, holds the minted bytes, and the id prints them. |
| ThreadIdentities.ThreadIdentity.OwnsMinted | server/src/channels/thread-identity.ts:90-96 | A minted id is owned by its organization, and by another exactly when their fingerprints agree. |
| ThreadIdentities.ThreadIdentity.OwnsExactlyWhen | server/src/channels/thread-identity.ts:90-96 | An id is owned exactly when it is a UUID of version 8 whose first six bytes are the organization's fingerprint. |
| ThreadIdentities.ThreadIdentity.FingerprintIs | server/src/channels/thread-identity.ts:70-78 | The fingerprint is the first six bytes of the digest of the deployment's id, followed by the organization's unless that is the local one. |
| ThreadIdentities.ThreadIdentity.OwnedElsewhere | server/src/channels/thread-identity.ts:90-96 | A minted id is owned in another deployment exactly when the two fingerprints agree. |
| ThreadIdentities.MintedText | server/src/channels/thread-identity.ts:62-88 | A minted id has 36 characters, an `8` where the version stands, and one of `8`, `9`, `a` and `b` where the variant does. |
| ThreadIdentities.NamespaceSeparates | server/src/channels/thread-identity.ts:70-76 | Within a deployment two organizations never share a namespace. |

## Left out

- StallGuards.StallGuard.Sweep: does not model the order in which one sweep's streams are closed and audited, because the map is walked in any order here.
- RosterLists.List: the goal, action and approval fields of a summary are not modelled; the channel's own fields are carried over as they stand.
- Supervisors.ConcurrentEnsuresAgree: assumes the container does not stop or move by itself meanwhile.
- Rosters.RosterWalk: states the shown rows for an unchanging roster only; rows that move between pages are not modelled.
- ThreadIdentities.NamespaceSeparates: two different deployments are not compared, since one deployment's id may be spelled like another's organization.
- WorkspaceConfinement.WriteIsConfined: a link target with `..` is resolved lexically by the code and by the model; that the kernel would land in the same place is not claimed, only that the place is inside.
- WorkspaceConfinement.ReadBack: the round trip is stated where the requested name is not a link; through a link, what is proved is where a write lands and what it leaves there.
- Request bodies, HTTP routing, SQL text, configuration, telemetry, React and browser-protocol code.
- The wording of stall messages, the stall's audit row beyond that it comes after the close, and finding a turn's channel in a request body.
- YAML parsing of a snapshot; the walk starts from the parsed tree.
- The cursor's base64 and JSON, `previewOf`, channel creation and `addAgents`, and the agreement of `goalStatus` between SQL and JavaScript.
- The audit cursor's text, and audit redaction.
- UTF-8 sequences cut in the middle by a tail buffer or a bounded read.
- The supervisor's list of computers and its container options.
- A browser profile's directory: its locks, its deletion by `reset`, and the pause after a close.
- Whether an idle browser was used again between two closings of one sweep: the sweep chooses once.
- Tool arguments are their JSON text, and printing them is taken not to fail: a run fails between two graph events.
- Cryptography: sha256 is a parameter, and the vault, callback tokens and sign-on are not modelled.

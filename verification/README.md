# A model of NekroNXT's move, confinement, process and log protocols

Dafny models, with proofs, of the parts of the NekroNXT desktop app and server that have to be right under crashes,
interleavings or awkward orderings:

- **The crash-safe move of the data directory** (`FileTrees`, `MovePlan`, `Preflight`, `JsonPaths`, `DataMove`, `Desktop`,
  `RecordWriter`). Two directory trees, the location file and the journal record are the disk. Every effect on it is one
  step that may be done, fail, or be the last before a crash; a crash keeps the disk and loses the process. Whatever a run
  is cut short at, in the move or in its undo, the first directory a later launch opens is the old one restored or the new
  one complete.
- **Read confinement as a compiler** (`Confinement`, `Landlock`, `ConfinedArgv`). One rule list, three targets with three
  semantics, one meaning.
- **Protocols with interleavings** (`HostSupervisor`, `SerialQueue`, `InstanceProfiles`, `StoreRuns`, `Enrollment`,
  `CommunityCache`).
  Asynchronous code is cut at its awaits: each stretch between two awaits is one step, and a run is any sequence of steps.
- **Folds over the session log** (`SessionLog`, `ReminderProjection`, `ReplyObligation`, `ReplyGuard`, `RuntimeEvents`,
  `Backlog`). Incremental projections are proved equal to statements about the whole log.

Code that changes state is written as classes and methods with loops; each method's contract ties the new state to a
function of the old one, and what the code is for is proved about that function over all runs.

## Assumptions

- *Move.* The target holds no unit's name (the checks before a move do not look at it;
  `Preflight.PassedPlansAreAdmissible` shows nothing else is missing). Nothing else writes to the trees during a move.
  Whether another process owns the move is an arbitrary boolean, and the owner is the only one at work. A record, a path
  record and a marker are each written in one step. "Complete" is relative to the units the record names.
- *Move, links.* What lies behind a symbolic link is in neither tree and the same from both; the model sees it through
  `Links`: the text a linked path record leads to, whether path records behind a linked directory can be found and
  rewritten, and whether the marker can be written and removed behind one.
- *Move, undisturbed.* `faultless` means that no call fails of itself; whether a copied database passes its check and whether
  the location file can be written are parameters (`Host.sound`, `Host.switches`). A path that leads through something
  that is no directory still fails (ENOTDIR), even where the code ignores a missing file.
- *Supervisor.* `start` is not called while an earlier `start` or `stop` is pending, callbacks do not throw, and delays and
  readiness end in any way at any time; continuations that are due run in any order. Without the assumption on `start` the
  code can forget a running child, and `HostSupervisor.ForgottenExactlyWhenOneIsPending` says exactly when. Runs are
  followed through one `start` out of turn.
- *Supervisor, budget.* The bound of budget plus one on the failure list holds within one lifecycle only.
- *Profiles.* Origins are opaque normalized values. Random ids do not repeat. A new local origin equal to a remote one is
  not rejected on opening, and pins are not checked when a profile is added or its security replaced; both are stated as
  exact conditions.
- *Enrollment.* Compensating calls succeed. Nothing else changes vault and profiles during an operation. What the server
  says when inspected and what it answers are parameters. A throw of `editRemoteProfileConnection` between enrolling and
  its `try` leaves the new device registered; the contract says exactly when.
- *Confinement.* Paths are sequences of segments, none of which starts with `..`; the code compares relative paths as text
  and would take a name such as `..x` for an escape.
- *Cache.* What a load fetched is known by the load; a load settles in any way at any time.
- *Reply guard.* Session events are numbered upwards from zero; turn numbers may repeat. The set of admissions and the
  counts of corrections are those of one agent.

## Where code and comments differ

- `readMoveRecordSync` treats a damaged record as none, so a move whose record is damaged is never undone; the model's
  record is always readable.
- The comment on `undoDataMove` says it puts the source back the way it was. It loses a marker an earlier move left, exactly
  when a unit carried it (`OldMarkerIsLostExactlyWhenCarried`), and turns a linked path record into a regular file with
  the same text, exactly when it was journaled and in the target (`LostExactlyWhenJournaled`).
- Undoing a copy does not restore path records (`data-move.ts:460-462`), because the source keeps its own. A path record
  behind a linked directory is one file for both, though, so a copy changes it for the source too and an undo leaves it
  changed. It lies outside the modelled trees.
- The comment also says that undoing may run again after a crash at any point. Where `data` or `data/host` is not a directory in
  the target, every run fails on the marker before it has put anything back, and no launch opens a directory any more
  (`FileAboveTheMarkerSticks`, `UndisturbedLaunches`).

## Model

| member | source | states |
|---|---|---|
| JsonPaths.RewriteString | apps/desktop/src/data-move.ts:231-238 | the loop over the prefixes computes the string the first matching prefix gives |
| JsonPaths.RewriteKeepsShape | apps/desktop/src/data-move.ts:230-245 | a rewritten value has the same nesting, lengths and keys; only strings differ |
| JsonPaths.RewriteRenews | apps/desktop/src/data-move.ts:230-245 | what the rewrite makes of any value, without the loop: the same shape and keys, each string that starts at a root with the first such root replaced and the rest kept, and every other string as it was |
| JsonPaths.RewriteIdempotent | apps/desktop/src/data-move.ts:230-245 | rewriting twice is rewriting once, for any JSON value, when the new root is unrelated to every old one |
| JsonPaths.IdempotentExactlyWhenSteady | apps/desktop/src/data-move.ts:231-238 | for any list of old roots whatever, rewriting is idempotent on all strings if and only if it leaves the new root alone and no old root the loop can stop at lies strictly below the new one |
| JsonPaths.RewriteIdempotentExactlyWhenSteady | apps/desktop/src/data-move.ts:230-245 | the same if and only if, for all JSON values |
| JsonPaths.IdempotentExactlyWhenUnrelated | apps/desktop/src/data-move.ts:230-245 | for any list of pairwise unrelated prefixes that lacks the new root, idempotence on all JSON values holds if and only if each is unrelated to the new root |
| JsonPaths.OneIdempotentExactlyWhenUnrelated | apps/desktop/src/data-move.ts:230-245 | for one prefix, idempotence on all JSON values holds if and only if the two roots are unrelated or equal |
| JsonPaths.BelowNoPrefixIsNotEnough | apps/desktop/src/data-move.ts:230-245 | that the new root lies below no old one is not enough: an instance of the exact condition where an old root lies below the new one |
| JsonPaths.StringRoundTrip | apps/desktop/src/data-move.ts:231-238 | the swapped rewrite restores a string exactly when it was below the old root or is not below the new one |
| JsonPaths.RewriteRoundTrip | apps/desktop/src/data-move.ts:230-245 | the swapped rewrite restores a whole JSON value exactly when each of its strings survives |
| MovePlan.RebuildableIsClosedBelow | apps/desktop/src/data-move-plan.ts:37-45 | whatever lies below a rebuildable entry is rebuildable, so pruning a walk loses nothing else |
| MovePlan.RebuildableExactlyBelowRoots | apps/desktop/src/data-move-plan.ts:9-45 | what a copy leaves out is exactly what lies at or below the named directories |
| MovePlan.ListMoveUnits | apps/desktop/src/data-move-plan.ts:53-72 | the list holds exactly the units (root entries but locks and a `data` directory, entries of `data` but `backups`), none inside another |
| MovePlan.EntriesOf | apps/desktop/src/data-move-plan.ts:66-69 | the entries of `data` except the one kept in place, each once |
| MovePlan.ScanMove | apps/desktop/src/data-move-plan.ts:85-114 | the planned bytes, the count of files and the longest relative path are those of exactly the entries carried, each counted once |
| MovePlan.Visit | apps/desktop/src/data-move-plan.ts:94-111 | the recursive walk sizes what is carried from below one entry |
| Preflight.PreflightMove | apps/desktop/src/data-move-plan.ts:257-314 | refused for the first thing that speaks against the move, an error exactly when the target cannot be looked for, planned exactly when nothing speaks against it; the plan lists every unit once and sizes exactly what is taken along |
| Preflight.CheckRoots | apps/desktop/src/data-move-plan.ts:262-270 | the checks of the two paths find the first problem there is, if any |
| Preflight.CheckTarget | apps/desktop/src/data-move-plan.ts:221-283 | the checks that only look at paths and target find the first problem there is, or fail exactly where an ancestor of the target is no directory, except on Windows |
| Preflight.PassedRootsShareNothing | apps/desktop/src/data-move-plan.ts:267-270 | no path lies below both of two directories that passed |
| Preflight.PassedPlansAreAdmissible | apps/desktop/src/data-move-plan.ts:262-314 | a plan that passed satisfies all the protocol assumes, but for ignorable names the source has as well as the target |
| Preflight.PassedRootsAreUnrelated | apps/desktop/src/data-move-plan.ts:267-270 | the data directories of roots that passed are unrelated as texts, on Windows as elsewhere, so rewriting path records from the one to the other is idempotent |
| Preflight.OldMarkerIsCarried | apps/desktop/src/data-move-plan.ts:66-69 | a marker of an earlier move lies in a unit, so it travels along |
| Preflight.LengthIsSpelled | apps/desktop/src/data-move-plan.ts:102 | the counted length of a relative path is that of its text, whatever the separator |
| DataMove.RenameAway | apps/desktop/src/data-move.ts:376-393 | renaming one more unit takes exactly its entries out of the source and puts them in the target |
| DataMove.RenameHome | apps/desktop/src/data-move.ts:453-457 | renaming a unit back keeps both trees undoable with one unit less away |
| DataMove.RenamedIsUndoable | apps/desktop/src/data-move.ts:376-393 | after any number of renames nothing is lost: every entry is in one of the trees as it was |
| DataMove.UnitsAllHome | apps/desktop/src/data-move.ts:453-474 | with no unit away the source is the original and the target holds at most directories of the move |
| DataMove.RewroteIsArrived | apps/desktop/src/data-move.ts:419-437 | once every path record is rewritten and the marker stands, the target is the complete one |
| DataMove.CopyCountsWhatWasPlanned | apps/desktop/src/data-move.ts:293-345 | below any one path the bytes copied are the bytes carried; `CopyUnits` sums this over all units and meets the plan's total |
| DataMoveProtocol.Desktop.Request | apps/desktop/src/data-move.ts:133-151 | a requested move starts in a state any launch can undo |
| DataMoveProtocol.Desktop.Save | apps/desktop/src/data-move.ts:361-364 | a save that succeeded is on disk; whatever its end, the record on disk is one the move can be undone from |
| DataMoveProtocol.Desktop.CreateDirectories | apps/desktop/src/data-move.ts:365-373 | the directories the move needs and nothing else, undoable at every step |
| DataMoveProtocol.Desktop.RenameUnits | apps/desktop/src/data-move.ts:376-393 | after all renames the source is what stays behind and the target has every unit, undoable at every step |
| DataMoveProtocol.Desktop.RenameUnit | apps/desktop/src/data-move.ts:381-392 | one more unit is away, and the trees can be undone from there |
| DataMoveProtocol.Desktop.CopyUnits | apps/desktop/src/data-move.ts:395-411 | after all copies the target has exactly what is not rebuildable; the source never changes; the bytes counted are those of all the plan carries |
| DataMoveProtocol.Desktop.Transfer | apps/desktop/src/data-move.ts:375-411 | everything that travels has been brought over, by renaming or by copying with the databases checked |
| DataMoveProtocol.Desktop.CheckDatabases | apps/desktop/src/data-move.ts:397-410 | done undisturbed exactly when every database in the data directory passes its check |
| DataMoveProtocol.Desktop.CopyEntry | apps/desktop/src/data-move.ts:293-345 | copies exactly the entries of the subtree that are not rebuildable and counts their bytes |
| DataMoveProtocol.Desktop.CopyDirectory | apps/desktop/src/data-move.ts:306-311 | a directory and everything below it that is not rebuildable |
| DataMoveProtocol.Desktop.CopyLeaf | apps/desktop/src/data-move.ts:312-339 | a file exists, incomplete, before it has its content; a crash between is undoable |
| DataMoveProtocol.Desktop.CopyChildren | apps/desktop/src/data-move.ts:306-311 | the children of a directory one after the other, with the bytes of each |
| DataMoveProtocol.Desktop.PathRecordFiles | apps/desktop/src/data-move.ts:248-259 | answers exactly the files of the target that record paths, and fails exactly when something on the way to them is neither a directory nor a link behind which it works |
| DataMoveProtocol.Desktop.RewritePathRecords | apps/desktop/src/data-move.ts:416-431 | originals are journaled before any file changes; at the end every path record is rewritten; undisturbed it succeeds exactly when the records can be listed, read and rewritten |
| DataMoveProtocol.Desktop.ReadOriginals | apps/desktop/src/data-move.ts:419-421 | the journal holds the original of each path record |
| DataMoveProtocol.Desktop.ApplyRewrites | apps/desktop/src/data-move.ts:424-431 | each file changed is in the journal on disk, whichever rewrite the run stops at |
| DataMoveProtocol.Desktop.ReplaceRecord | apps/desktop/src/data-move.ts:424-427 | a path record becomes a regular file with the new text, undoable because the journal on disk has the old one |
| DataMoveProtocol.Desktop.WriteMarker | apps/desktop/src/data-move.ts:432-437 | the marker and its directory are added, or the marker goes behind a linked directory and the tree stays; succeeds undisturbed exactly when the place lets it |
| DataMoveProtocol.Desktop.UpdatePathRecords | apps/desktop/src/data-move.ts:413-437 | undisturbed it completes exactly when the path records can be listed, read and rewritten and the marker has its place |
| DataMoveProtocol.Desktop.RunDataMove | apps/desktop/src/data-move.ts:359-439 | wherever it stops the move can be undone; when it completes everything that travels is in the target as it was, each path record is its JSON with the new root in place of the old, the marker stands and nothing else came; the bytes counted are those planned; undisturbed it completes if and only if copied databases pass their check and the path records and the marker's place allow it |
| DataMoveProtocol.Desktop.UndoDataMove | apps/desktop/src/data-move.ts:445-476 | from any state a move can reach: when it completes the trees are home, determined by the start, and exactly the linked path records the journal and the target have are regular files; wherever it stops, it can run again; undisturbed it completes if and only if the marker can be removed, and otherwise nothing happens at all |
| DataMoveProtocol.Desktop.UndoUntilDone | apps/desktop/src/data-move.ts:441-476 | any number of interrupted undos before a complete one end in the same trees as one uninterrupted undo |
| DataMoveProtocol.Desktop.RemoveMarker | apps/desktop/src/data-move.ts:449 | the marker is gone, or nothing changed; undisturbed it fails exactly when something above the marker is no directory or the marker is one |
| DataMoveProtocol.Desktop.RestoreOriginals | apps/desktop/src/data-move.ts:450-452 | every rewritten file gets its original back before any unit is renamed home |
| DataMoveProtocol.Desktop.RestoreOne | apps/desktop/src/data-move.ts:450-452 | one original is back, so that file needs no journal any more; the outcome of the whole undo stays the same |
| DataMoveProtocol.Desktop.BringHome | apps/desktop/src/data-move.ts:456 | one unit less is away; nothing else changes hands |
| DataMoveProtocol.Desktop.RenameUnitsBack | apps/desktop/src/data-move.ts:453-458 | at the end no unit is away |
| DataMoveProtocol.Desktop.RemoveCopies | apps/desktop/src/data-move.ts:461 | at the end nothing is left in the target below any unit |
| DataMoveProtocol.Desktop.RemoveRecursively | apps/desktop/src/data-move.ts:461 | a recursive removal cut short anywhere removed only copies |
| DataMoveProtocol.Desktop.RemoveDirectories | apps/desktop/src/data-move.ts:463-475 | only directories the move made are removed, and the target is then as before |
| DataMoveProtocol.Desktop.RemoveDirectory | apps/desktop/src/data-move.ts:469-474 | an empty directory of the move goes, one with anything in it stays, and it may run again |
| DataMoveProtocol.Desktop.RunDataMoveMode | apps/desktop/src/data-move-mode.ts:36-108 | whatever fails or crashes, the disk is one every later launch can carry on from; the app is relaunched only once the location file names the target; undisturbed, a move that can complete and whose location can be written does and its record is closed, and any other is undone, or stuck exactly when the marker cannot be removed |
| DataMoveProtocol.Desktop.GiveUp | apps/desktop/src/data-move-mode.ts:51-67 | an undo that fails or crashes leaves the move unfinished on record, so the next launch tries again; undisturbed it restores, unless the marker cannot be removed |
| DataMoveProtocol.Desktop.FinishRecord | apps/desktop/src/data-move-mode.ts:95-101 | failing to update the record after the switch changes nothing about the data |
| DataMoveProtocol.Desktop.Launch | apps/desktop/src/main.ts:327-373 | a launch that opens the old directory finds it restored, one that opens the new directory finds it complete, and it opens the one the location file names; it touches nothing while another process is at work on the move, starts a move only when asked to, undoes one left half done, and closes the record of one that switched; once stuck, always stuck |
| DataMoveProtocol.Desktop.Launches | apps/desktop/src/data-move-mode.ts:36-108 | over any number of launches, each cut short anywhere, with undo and migration restarted at will: the first directory opened is restored or complete |
| DataMoveProtocol.Desktop.UndisturbedLaunches | apps/desktop/src/data-move-mode.ts:64-104 | from whatever a crash left, two or more launches nothing disturbs open a directory if and only if the first gets the move over with, which the record, the trees and the names on the way decide; otherwise none ever opens one |
| DataMoveProtocol.CompletedHasMoved | apps/desktop/src/data-move.ts:359-439 | entry by entry: what a completed move leaves in both trees, and that every entry that arrives has its directory |
| DataMoveProtocol.FileAboveTheMarkerSticks | apps/desktop/src/data-move.ts:449 | every source whose `data` or `data/host` is a regular file gets stuck: the move cannot complete and its undo cannot remove the marker |
| DataMoveProtocol.NothingLinkedNothingLost | apps/desktop/src/data-move.ts:450-452 | without linked path records, and for every copy, the source an undo goes back to is the original one |
| DataMoveProtocol.LostExactlyWhenJournaled | apps/desktop/src/data-move.ts:450-452 | a finished undo of a renaming move turned a linked path record into a file if and only if the target had it and the journal names it |
| DataMoveProtocol.DecisionsMatchTheDisk | apps/desktop/src/data-move.ts:509-525 | each of the six decisions is taken exactly under its condition on record, flag, location file and owner, and matches the trees: undo and migrate only before the switch, migrate and abandon on untouched trees, finish on a complete target |
| DataMoveProtocol.NothingIsLostBeforeTheSwitch | apps/desktop/src/data-move.ts:412-431 | at every moment before the switch each original entry is in the source, or in the target with the same content or its original in the journal on disk; the trees change only once the record on disk says so |
| DataMoveProtocol.OldMarkerIsLostExactlyWhenCarried | apps/desktop/src/data-move.ts:449 | undoing a finished move restores the source exactly if no unit carried a marker of an earlier move |
| RecordWriter.DiskNeverGoesBack | apps/desktop/src/data-move-mode.ts:38-49 | in every interleaving of saves, heartbeats and settling writes an older record never replaces a newer one |
| RecordWriter.ConfirmedStepStaysOnDisk | apps/desktop/src/data-move-mode.ts:38-49 | a progress step that is on disk stays there through any heartbeats |
| RecordWriter.SettledStepStays | apps/desktop/src/data-move-mode.ts:38-49 | once the write at the head of the chain succeeded, no later event takes the disk back before it, and without later saves its progress stays on disk for good |
| RecordWriter.BeatsLeaveOldOrCurrent | apps/desktop/src/data-move-mode.ts:38-49 | between awaited saves, whatever beats come and whatever writes settle or fail, the disk keeps its progress or gets the current one |
| RecordWriter.AwaitedSaveSettles | apps/desktop/src/data-move-mode.ts:41-46 | when the write of an awaited save settles the disk has the new progress if it went well, and otherwise what it had or what was current before, and only the new one is waiting |
| RecordWriter.SavingLeavesOldOrNew | apps/desktop/src/data-move-mode.ts:38-49 | from a save on, through any beats and failing writes until the next, the disk has what it had, what was current before, or the new progress |
| DataMoveProtocol.WriterSteps | apps/desktop/src/data-move-mode.ts:38-49 | any beats and settling writes between two effects change the record on disk only as the protocol's `Step` says |
| DataMoveProtocol.WriterSaves | apps/desktop/src/data-move-mode.ts:41-46 | any run of the writer up to the end of an awaited write, or cut short, leaves a record on disk that the protocol's `Save` allows, and the new one when it succeeded |
| RecordWriter.Writer.WriteRecord | apps/desktop/src/data-move-mode.ts:41-46 | the record becomes current and joins the end of the chain |
| RecordWriter.Writer.Heartbeat | apps/desktop/src/data-move-mode.ts:47-49 | a beat repeats the current progress with a new time |
| RecordWriter.Writer.SettleWrite | apps/desktop/src/data-move-mode.ts:43 | writes reach the disk in chain order; a failed one does not stop the next |
| Confinement.ReadableBy | apps/server/src/command-confinement.ts:56-60 | the loop's answer is that of the last covering rule |
| Confinement.NarrowestRuleDecides | apps/server/src/command-confinement.ts:44-60 | whatever the order of the inputs, a path is readable exactly when every hidden root above it has a readable root between the two, or equal to it; equal paths read as allowed |
| Confinement.SeatbeltForms | apps/server/src/command-confinement.ts:63-90 | under last-match semantics the forms let data be read exactly where the rules do, metadata also on ancestors of read roots, and deny sockets exactly below hidden roots; signals stay in the sandbox and the network is denied exactly when it is to be |
| Confinement.Ancestors | apps/server/src/command-confinement.ts:66-72 | exactly the proper ancestors of read roots but the root directory |
| Confinement.MountsOfRules | apps/server/src/command-confinement.ts:93-108 | the argument list reads back as one mount for each rule, in order |
| Confinement.BwrapShowsReadable | apps/server/src/command-confinement.ts:93-108 | the topmost mount shows the host's own content at its place exactly where the rules allow reading, an empty directory elsewhere below a rule, and is writable exactly where the workspace's own rule decides and writing is allowed |
| Confinement.UnsharesExactly | apps/server/src/command-confinement.ts:106 | the network is cut off exactly when it is not allowed |
| Landlock.LandlockReadRoots | apps/server/src/command-confinement.ts:117-155 | the walk finds exactly the granted entries: topmost readable ones holding no rule, reached through listed directories, and the links it may grant |
| Landlock.Visit | apps/server/src/command-confinement.ts:119-152 | the same from any directory of the walk |
| Landlock.VisitChildren | apps/server/src/command-confinement.ts:132-151 | the entries granted through the children of one directory, links included |
| Landlock.GrantsAreReadable | apps/server/src/command-confinement.ts:110-155 | soundness: everything at or below a granted entry, or below a granted link's target, is readable by the rules |
| Landlock.GrantedExactlyWhenReadable | apps/server/src/command-confinement.ts:110-155 | a path reached without links through listable directories and outside the writable roots is below a granted root exactly when it is readable and holds no rule |
| Landlock.RootsFormAntichain | apps/server/src/command-confinement.ts:117-155 | no granted root lies inside another |
| ConfinedArgv.KeepGrants | apps/server/src/command-confinement.ts:189-195 | every grant but `--ro /` is kept in order, and the writable roots are noted |
| ConfinedArgv.GrantsOfSpelled | apps/server/src/command-confinement.ts:189-197 | grants written as arguments read back as the same grants |
| ConfinedArgv.ExtendConfinedArgv | apps/server/src/command-confinement.ts:160-200 | each runner's arguments are extended in its own way: forms that confine Seatbelt, mounts that show what the rules say with the network cut off exactly when it can and shall be, or Landlock grants; the command behind the separator never changes, and any other command line is returned as it was |
| ConfinedArgv.RulesOverrideTheProfile | apps/server/src/command-confinement.ts:172-178 | appended to the runner's own profile the forms decide every path a rule covers and no other |
| ConfinedArgv.RulesMountOnTop | apps/server/src/command-confinement.ts:179-186 | mounts appended to the runner's own cover them, and only where there is one |
| ConfinedArgv.OnlyAllowedIsRead | apps/server/src/command-confinement.ts:110-198 | for every path whatever: after the rewrite only what the runner's writable grants open can be read, and what the rules allow and holds no rule, with a granted link opening whatever it leads to |
| ConfinedArgv.ExtendedLandlockReads | apps/server/src/command-confinement.ts:110-198 | after the rewrite a path reached without links can be read, by grants of entries or of links, exactly when a writable grant opens it or the rules allow it and none lies inside it; what is writable does not change |
| HostSupervisor.NextInv | apps/desktop/src/host-supervisor.ts:106-268 | every segment keeps: one live child at most, known to the supervisor, and the phase each pending call is in |
| HostSupervisor.AtMostOneChild | apps/desktop/src/host-supervisor.ts:106-268 | in every interleaving at most one child is live, and it is the current one |
| HostSupervisor.NothingSpawnsWhenQuiet | apps/desktop/src/host-supervisor.ts:128-144 | after `stop` was requested or the fatal report, no run without another `start` spawns a child |
| HostSupervisor.StopMakesQuiet | apps/desktop/src/host-supervisor.ts:128-133 | requesting `stop` makes the supervisor quiet at once |
| HostSupervisor.OnlyStartSetsALifecycle | apps/desktop/src/host-supervisor.ts:106-143 | no segment but `start` sets a lifecycle or takes up one that was told to end |
| HostSupervisor.StoppedMeansNoChild | apps/desktop/src/host-supervisor.ts:134-143 | when `stop` resolves, or returns at once, no child is live |
| HostSupervisor.StopCanEnd | apps/desktop/src/host-supervisor.ts:128-143 | a requested `stop` can always come to its end, wherever start and supervision were, without spawning anything |
| HostSupervisor.FailedStartUnwinds | apps/desktop/src/host-supervisor.ts:114-125 | a `start` whose process never gets ready can end its child and be called again |
| HostSupervisor.ExitIsAnswered | apps/desktop/src/host-supervisor.ts:181-208 | an exit is followed by a new child at once when it was asked for, and otherwise exactly as long as the budget lasts |
| HostSupervisor.CandidateIsAnswered | apps/desktop/src/host-supervisor.ts:203-220 | a candidate that comes up is supervised, any other is ended and then counts as a failure |
| HostSupervisor.NewSupervisorIsSafe | apps/desktop/src/host-supervisor.ts:76-268 | in every allowed run of a new supervisor at most one child is live, and none whenever no lifecycle exists |
| HostSupervisor.ForgottenExactlyWhenOneIsPending | apps/desktop/src/host-supervisor.ts:106-144 | from any state a run can reach with nothing started, a `start` can lead to a child that is live and forgotten if and only if a `stop` or an earlier `start` is pending |
| HostSupervisor.OlderStartForgetsNewChild | apps/desktop/src/host-supervisor.ts:117-124 | from every such state with a pending `start` that one can unset the new lifecycle while a child of it is live |
| HostSupervisor.StartCanPendWithNothingStarted | apps/desktop/src/host-supervisor.ts:114-143 | such states are reached when `stop` settles before the `start` it aborted |
| HostSupervisor.StopForgetsNewChild | apps/desktop/src/host-supervisor.ts:134-143 | from every such state with a pending `stop` the new child is live and forgotten as soon as the old one is seen gone and `stop` settles |
| HostSupervisor.StopCanPendWithNothingStarted | apps/desktop/src/host-supervisor.ts:106-144 | such states are reached from a new supervisor |
| HostSupervisor.CrashBudgetHolds | apps/desktop/src/host-supervisor.ts:225-242 | with a clock that does not go back, any window holds at most the budgeted restarts over the whole run; the list outgrows the budget only by fatal reports |
| HostSupervisor.ListIsTheWindow | apps/desktop/src/host-supervisor.ts:225-230 | after a registration the list holds exactly the failures of the whole run within the window |
| HostSupervisor.OneLifecycleAddsOneAtMost | apps/desktop/src/host-supervisor.ts:225-239 | without another `start` the list never exceeds the budget plus one |
| HostSupervisor.FailureListCanOutgrowBudgetPlusOne | apps/desktop/src/host-supervisor.ts:225-242 | counterexample across lifecycles: a start soon after the fatal report takes the list to budget plus two |
| HostSupervisor.Supervisor.constructor | apps/desktop/src/host-supervisor.ts:76-100 | a new supervisor has no child and no failures |
| HostSupervisor.Supervisor.ChildExits | apps/desktop/src/host-supervisor.ts:147-158 | a child exits once, with its first code |
| HostSupervisor.Supervisor.Start | apps/desktop/src/host-supervisor.ts:106-114 | refused exactly when a lifecycle exists or the process cannot be created; otherwise one new child is current |
| HostSupervisor.Supervisor.StartSettles | apps/desktop/src/host-supervisor.ts:114-125 | readiness hands the child to supervision; anything else aborts the lifecycle |
| HostSupervisor.Supervisor.StartFails | apps/desktop/src/host-supervisor.ts:117-124 | a failed start ends its child before clearing the lifecycle |
| HostSupervisor.Supervisor.OlderSettles | apps/desktop/src/host-supervisor.ts:114-123 | an older pending start ends whatever launch is current |
| HostSupervisor.Supervisor.OlderFails | apps/desktop/src/host-supervisor.ts:119-124 | once that launch is gone it unsets the lifecycle, whosever it is |
| HostSupervisor.Supervisor.Stop | apps/desktop/src/host-supervisor.ts:128-134 | aborts the lifecycle and captures the current child; a second call joins the first |
| HostSupervisor.Supervisor.StopContinues | apps/desktop/src/host-supervisor.ts:134-137 | the captured child is known to be gone only once it exited |
| HostSupervisor.Supervisor.StopEnds | apps/desktop/src/host-supervisor.ts:134-143 | settles exactly once the captured child is gone and supervision is over, and then no child is live |
| HostSupervisor.Supervisor.RegisterFailure | apps/desktop/src/host-supervisor.ts:225-242 | the loop drops exactly the expired failures, answers no delay exactly when the budget is exceeded, and the delay index is in range |
| HostSupervisor.Supervisor.SeeExit | apps/desktop/src/host-supervisor.ts:181-195 | a requested restart skips the budget, any other exit counts |
| HostSupervisor.Supervisor.EndDelay | apps/desktop/src/host-supervisor.ts:196-208 | nothing is spawned once the lifecycle was aborted |
| HostSupervisor.Supervisor.CandidateSettles | apps/desktop/src/host-supervisor.ts:209-217 | a candidate that came up is supervised, any other is ended first |
| HostSupervisor.Supervisor.CandidateExits | apps/desktop/src/host-supervisor.ts:215-220 | a failed candidate counts once it is gone |
| SerialQueue.NextInv | apps/desktop/src/serial-task-queue.ts:18-56 | one task runs at a time, the others wait in submission order, and waiting means one is running |
| SerialQueue.NextConserves | apps/desktop/src/serial-task-queue.ts:18-56 | each step accounts for every task: refused, pending, running, finished or cancelled |
| SerialQueue.FifoAndConserving | apps/desktop/src/serial-task-queue.ts:13-57 | over any run tasks start in submission order, none is lost or run twice, and after closing none starts |
| SerialQueue.SerialTaskQueue.Run | apps/desktop/src/serial-task-queue.ts:18-33 | accepted exactly while open, and joins the end of the queue |
| SerialQueue.SerialTaskQueue.CloseQueue | apps/desktop/src/serial-task-queue.ts:35-40 | cancels exactly the waiting tasks; the running one goes on |
| SerialQueue.SerialTaskQueue.Finish | apps/desktop/src/serial-task-queue.ts:47-54 | the next waiting task starts when one ends |
| SerialQueue.SerialTaskQueue.Drain | apps/desktop/src/serial-task-queue.ts:42-46 | starts the head of the queue exactly when nothing runs |
| InstanceProfiles.AppliedKeepsConsistent | apps/desktop/src/instance-profiles.ts:241-495 | every operation keeps the local profile first, ids, origins and instances distinct, and the selected profile present |
| InstanceProfiles.SavedIsAcceptedExactlyWhenPinned | apps/desktop/src/instance-profiles.ts:97-183 | what an operation saves is accepted by the next launch exactly when it leaves a pin where the transport needs one, which `addRemote` and `updateRemoteSecurity` leave to the caller |
| InstanceProfiles.OpenedConsistentExactlyWhenOriginFree | apps/desktop/src/instance-profiles.ts:207-214 | opening with a new local origin stays consistent exactly when no other profile has that origin |
| InstanceProfiles.EditTouchesOneProfile | apps/desktop/src/instance-profiles.ts:327-474 | an edit changes one profile where it stands, and the selection only when selecting |
| InstanceProfiles.AddedProfile | apps/desktop/src/instance-profiles.ts:280-325 | adding is refused exactly when the address or instance is listed or the transport does not fit; the profile added has every field as asked for, comes last and is selected |
| InstanceProfiles.EditedProfile | apps/desktop/src/instance-profiles.ts:327-474 | an edit is refused exactly when no profile with that id may be edited so; each kind of edit sets the fields it is about and leaves all others |
| InstanceProfiles.RemovedProfile | apps/desktop/src/instance-profiles.ts:476-495 | removing is refused exactly for the local profile and unknown ids; all others stay in their order |
| InstanceProfiles.PatchedProfile | apps/desktop/src/instance-profiles.ts:385-412 | a patch changes the named fields only, and a route the app cannot open becomes the default one |
| InstanceProfiles.StoreStaysConsistent | apps/desktop/src/instance-profiles.ts:241-502 | over any sequence of operations one after the other, with any saves failing, memory stays consistent and equal to the disk up to the local origin |
| StoreRuns.InStepWheneverNothingRuns | apps/desktop/src/instance-profiles.ts:187-502 | in every interleaving of submissions, saves that land or never do, endings and closing: memory is always consistent, and whenever nothing runs the store is where the finished operations lead one after the other, in step with the disk |
| StoreRuns.RunIsSerial | apps/desktop/src/instance-profiles.ts:187-502 | the same with the operation that is running: it found what the finished ones left, and the disk has that or what it wrote |
| StoreRuns.AnEndIsSerial | apps/desktop/src/instance-profiles.ts:241-502 | an operation cut at its save ends where it would have ended in one step |
| StoreRuns.DoneInOrder | apps/desktop/src/serial-task-queue.ts:18-56 | the operations that ended are those submitted first, in that order |
| StoreRuns.SavedExactlyWhenLanded | apps/desktop/src/instance-profiles.ts:300-325 | an operation counts as saved exactly when its save reached the disk; memory and disk then have what it wrote, and otherwise what it found |
| StoreRuns.ClosingEndsTheQueue | apps/desktop/src/serial-task-queue.ts:35-40 | closing cancels what waits, leaves the running operation alone, and nothing is accepted after it |
| StoreRuns.OverlappingSavesDiverge | apps/desktop/src/instance-profiles.ts:187-325 | without the queue: of any two operations that overlap, when the first fails after the second was saved, memory is what the first found and the disk what the second wrote, in step if and only if those agree up to the local origin |
| InstanceProfiles.InstanceProfileStore.Open | apps/desktop/src/instance-profiles.ts:207-214 | memory is the stored envelope with the local profile's origin replaced and nothing else |
| InstanceProfiles.InstanceProfileStore.Fresh | apps/desktop/src/instance-profiles.ts:219-231 | a new store holds the local profile with its fixed fields, consistent and saved |
| InstanceProfiles.InstanceProfileStore.Commit | apps/desktop/src/instance-profiles.ts:300-325 | a failing save puts back what was in memory |
| InstanceProfiles.InstanceProfileStore.SetConnectionNotices | apps/desktop/src/instance-profiles.ts:241-252 | the setting is saved or rolled back |
| InstanceProfiles.InstanceProfileStore.AddRemote | apps/desktop/src/instance-profiles.ts:280-325 | refused exactly when the origin or instance is listed or the transport does not fit; saved, the new profile is last and selected with every field as asked for; otherwise nothing changes |
| InstanceProfiles.InstanceProfileStore.Edit | apps/desktop/src/instance-profiles.ts:327-474 | the four edits are refused exactly when they may not be made; saved, one profile has the new fields where it stands; otherwise nothing changes |
| InstanceProfiles.InstanceProfileStore.Remove | apps/desktop/src/instance-profiles.ts:476-495 | the local profile cannot be removed; the others stay in their order and selecting falls back to the local one |
| Enrollment.Client.CompensateEnrollment | apps/desktop/src/remote-profile-enrollment.ts:64-84 | removes the stored credential and revokes the device, if both halves of the answer were there |
| Enrollment.Client.KeepOrTakeBack | apps/desktop/src/remote-profile-enrollment.ts:96-122 | either the credential is stored under a new reference, where it can be encrypted, and the profile refers to it, or vault and profiles are as before and a complete enrollment is revoked; when no call fails of itself the latter exactly when the store refuses |
| Enrollment.Client.AddRemoteProfile | apps/desktop/src/remote-profile-enrollment.ts:86-123 | a throw leaves everything as before and the new device revoked; success adds, last and selected, a profile with the address, instance, pin and name of the enrollment that refers to exactly the stored credential; when no call fails of itself each ending has its exact condition |
| Enrollment.Client.ReauthenticateRemoteProfile | apps/desktop/src/remote-profile-enrollment.ts:125-175 | the same, with only that profile's pin and credential replaced; thrown before enrolling exactly when the profile or the server's identity is not what it was; an enrollment is left standing exactly when the answer lacks the device or a needed pin; at most the replaced credential goes |
| Enrollment.Client.EditRemoteProfileConnection | apps/desktop/src/remote-profile-enrollment.ts:194-288 | from its `try` on the same; when no call fails of itself an enrollment is left standing exactly when it was reached and what was paired is listed elsewhere or lacks the credential or pin its transport needs; renaming touches neither vault nor devices; the replaced credential is reported, not removed |
| Enrollment.SecuredProfile | apps/desktop/src/instance-profiles.ts:414-452 | replacing the security fields changes pin and credential of that profile only |
| Enrollment.ConnectedProfile | apps/desktop/src/instance-profiles.ts:327-387 | a reconnected profile has every field of the new connection, stays the same instance, keeps its partition exactly if the origin stayed, and no other profile changes |
| Enrollment.RefusedExactly | apps/desktop/src/instance-profiles.ts:280-452 | what the store refuses of an enrollment, by the list of profiles and the answer alone |
| CommunityCache.NextKeepsInv | apps/server/src/community-cache.ts:55-107 | every step keeps: entries, loads to join and waiting reads belong to their key and generation, keys distinct, size within the limit |
| CommunityCache.ClearedValuesAreNeverSeen | apps/server/src/community-cache.ts:55-107 | in every interleaving a read's value was fetched for its key by a load begun no earlier than the last clear before the read |
| CommunityCache.OneLoadAtATime | apps/server/src/community-cache.ts:73-90 | in every interleaving no two loads of the same key and generation are running, whether or not that generation has been cleared since |
| CommunityCache.HitExactlyWhenFresh | apps/server/src/community-cache.ts:55-62 | a read is answered at once exactly when it may use the cache and a copy younger than the limit is there; that answer is not stale |
| CommunityCache.EvictionKeepsTheNewest | apps/server/src/community-cache.ts:93-100 | with a clock that does not go back, what is evicted was fetched no later than anything kept |
| CommunityCache.EntriesStayChronological | apps/server/src/community-cache.ts:93-100 | over any run with such a clock the entries stay in the order they were fetched |
| CommunityCache.KeepsTheKeysFetchedLast | apps/server/src/community-cache.ts:93-100 | storing any log of fetches leaves exactly the last fetches of the keys fetched last |
| CommunityCache.StoredIsNewest | apps/server/src/community-cache.ts:93-100 | what is stored is the newest entry and the only one of its key, and nothing else goes while there is room |
| CommunityCache.CommunityReadCache.constructor | apps/server/src/community-cache.ts:31-46 | a new cache is empty, with the given limits or the usual ones |
| CommunityCache.CommunityReadCache.Read | apps/server/src/community-cache.ts:55-62 | answered at once from a young copy that may be used, and otherwise waiting for the one load of the key, joined or started |
| CommunityCache.CommunityReadCache.StartLoad | apps/server/src/community-cache.ts:73-90 | joins the running load of the key or starts one |
| CommunityCache.CommunityReadCache.SettleLoad | apps/server/src/community-cache.ts:78-83 | what was loaded is kept as the newest and only copy of its key, unless the cache was cleared since the load began |
| CommunityCache.CommunityReadCache.FailLoad | apps/server/src/community-cache.ts:77-86 | a failed load keeps nothing |
| CommunityCache.CommunityReadCache.FinishLoad | apps/server/src/community-cache.ts:84-86 | a load stops being joined once it finished, unless another took its place |
| CommunityCache.CommunityReadCache.Store | apps/server/src/community-cache.ts:93-100 | the loop evicts exactly the oldest entries beyond the limit |
| CommunityCache.CommunityReadCache.ResumeRead | apps/server/src/community-cache.ts:60-70 | the value loaded; after a failure the older copy marked as stale, or an error; what is gone is no longer kept |
| CommunityCache.CommunityReadCache.ClearAll | apps/server/src/community-cache.ts:102-106 | a new generation with nothing kept and nothing to join |
| Backlog.SelectBacklog | apps/server/src/backlog-budget.ts:34-57 | nothing is lost or reordered; a positive budget shows the longest suffix that fits it or has at most 20 messages; pictures are the first images counted from the newest shown message |
| Backlog.Cut | apps/server/src/backlog-budget.ts:38-47 | a suffix may be shown exactly when it starts at or after the cut |
| Backlog.MayShowShorter | apps/server/src/backlog-budget.ts:40-46 | a suffix of what may be shown may be shown, so the longest one exists |
| Backlog.FirstsAreAPrefix | apps/server/src/backlog-budget.ts:49-55 | the pictures are the different images of one prefix of the list, cut short only because there are as many as allowed |
| Backlog.Pictures | apps/server/src/backlog-budget.ts:49-55 | the loop over messages adds images newest first until there are enough |
| Backlog.PicturesOf | apps/server/src/backlog-budget.ts:51-54 | the loop over the images of one message, last one first |
| ReminderProjection.OnlyNewEventsCount | apps/server/src/channel-reply-guard.ts:122-124 | any feed with repetitions and late deliveries comes to the same as its new events alone |
| ReminderProjection.ReplayThenLive | apps/server/src/channel-reply-guard.ts:364-373 | replaying a prefix and then being told of events from any earlier point on is one pass over the log |
| ReminderProjection.StateReadsTheLog | apps/server/src/channel-reply-guard.ts:110-169 | after every prefix each field is what the events of the open turn say |
| ReminderProjection.RemindsExactlyWhenDue | apps/server/src/channel-reply-guard.ts:184-194 | a reminder is due exactly when the open turn has an admission, no confirmed send, no reminder, no call in flight, and its last boundary is a matched result at least 60 seconds after its start |
| ReminderProjection.AttemptedToStopReadsTheLog | apps/server/src/channel-reply-guard.ts:180-182 | exactly when the last thing said in the open turn was at that step and called no tool |
| ReminderProjection.ChannelProcessingReminderProjection.Append | apps/server/src/channel-reply-guard.ts:122-169 | an event already seen changes nothing, a new one takes the step |
| ReminderProjection.ChannelProcessingReminderProjection.RecordSend | apps/server/src/channel-reply-guard.ts:171-178 | only a delivered message to the current channel counts |
| ReminderProjection.ChannelProcessingReminderProjection.ShouldRemind | apps/server/src/channel-reply-guard.ts:184-194 | answers whether a reminder is due in that turn |
| ReminderProjection.ChannelProcessingReminderProjection.PreviousStepAttemptedToStop | apps/server/src/channel-reply-guard.ts:180-182 | answers whether the step called no tool |
| ReplyObligation.EndedExactlyWhenEndLogged | apps/server/src/channel-reply-guard.ts:43-50 | a turn reads as ended exactly when an end of it follows a start of it |
| ReplyObligation.CurrentTurnIsTheTurn | apps/server/src/channel-reply-guard.ts:43-50 | the part of the log that is read as the turn: from its first start up to its first end, or else up to the next start of any turn |
| ReplyObligation.TallyReadsTheTurn | apps/server/src/channel-reply-guard.ts:257-297 | after every prefix the fold's response is what the last deciding event left, the latest required admission is the last one, and a reply was produced exactly when a send was confirmed |
| ReplyObligation.OwesExactlyWhenUnanswered | apps/server/src/channel-reply-guard.ts:242-308 | a turn owes a reply exactly when its last required admission, logged or proposed, comes after the last confirmed send or finish; that reads as pending while open, failed or interrupted once ended |
| ReplyObligation.PendingExactlyWhenOwing | apps/server/src/channel-reply-guard.ts:242-308 | a turn is pending for an admission exactly when it is open and that is the last message needing a reply, with no confirmed send or finish after it |
| ReplyObligation.PendingNamesItsAdmission | apps/server/src/channel-reply-guard.ts:299-303 | a pending turn names an admission that requires a reply, with its count of corrections |
| ReplyObligation.FoldMessages | apps/server/src/channel-reply-guard.ts:223-240 | the proposed messages leave the last one that requires a reply |
| ReplyObligation.ResponseObligationState | apps/server/src/channel-reply-guard.ts:242-308 | the loops compute that obligation |
| ReplyObligation.ReasonOf | apps/server/src/channel-reply-guard.ts:215-221 | the backward loop finds the last end of the turn |
| ReplyGuard.RemindersAreAllowed | apps/server/src/channel-reply-guard.ts:328-352 | a reminder is for a remembered admission that requires a reply and has corrections left |
| ReplyGuard.RemindersAreDue | apps/server/src/channel-reply-guard.ts:328-433 | a reminder is given exactly when the turn owes a reply, fewer than two were given for it and, at a step, none is on its way; it is counted for that admission and nothing else changes |
| ReplyGuard.ProjectionReadsTheLog | apps/server/src/channel-reply-guard.ts:364-373 | what the projection answers, read off the part of the log it knows |
| ReplyGuard.RemindersAreBounded | apps/server/src/channel-reply-guard.ts:328-433 | over any run the reminders an admission gets are within what it has left plus two for each time it is remembered again |
| ReplyGuard.TwoRemindersAtMost | apps/server/src/channel-reply-guard.ts:392-447 | from the start, at most two reminders for each time an admission is remembered, and none for one never remembered as needing a reply |
| ReplyGuard.AnnouncedOnce | apps/server/src/channel-reply-guard.ts:364-373 | an announcement the projection was already made from is ignored, the next one is not |
| ReplyGuard.ReplyGuard.constructor | apps/server/src/channel-reply-guard.ts:362-391 | a new guard remembers nothing and has no projection |
| ReplyGuard.ReplyGuard.Commit | apps/server/src/channel-reply-guard.ts:373 | the log grows; the projection knows as much as before |
| ReplyGuard.ReplyGuard.Announce | apps/server/src/channel-reply-guard.ts:373 | after an announcement the projection is still one pass over the log |
| ReplyGuard.ReplyGuard.ProcessingFor | apps/server/src/channel-reply-guard.ts:364-372 | a projection made late knows the whole log |
| ReplyGuard.ReplyGuard.RememberAdmission | apps/server/src/channel-reply-guard.ts:435-442 | remembers the admission and starts its corrections over |
| ReplyGuard.ReplyGuard.RecordCorrection | apps/server/src/channel-reply-guard.ts:385-391 | one more correction for the admission, no other changes |
| ReplyGuard.ReplyGuard.WithReminder | apps/server/src/channel-reply-guard.ts:328-352 | adds one reminder, and counts it, exactly when one is owed and none is on its way |
| ReplyGuard.ReplyGuard.PreStepHook | apps/server/src/channel-reply-guard.ts:392-420 | the other hooks' messages stay in front; a reply reminder follows exactly when the model tried to stop and one is due, then a processing reminder exactly when the turn went on long enough unanswered; a rejection passes |
| ReplyGuard.ReplyGuard.TurnStoppingHook | apps/server/src/channel-reply-guard.ts:421-433 | steers back exactly when a reply is owed to a message that had fewer than two reminders, and counts it |
| RuntimeEvents.MarksKnowTheOpenTurn | apps/server/src/channel-runtime-events.ts:157-203 | the loop's open turn is the last started one unless it ended, and its answered flag says whether the model put something out in it |
| RuntimeEvents.InputsAreConserved | apps/server/src/channel-runtime-events.ts:208-225 | emitted inputs followed by held ones are the user messages, in order, each with the turn open when it came or the next one started |
| RuntimeEvents.NormalizedConservesInputs | apps/server/src/channel-runtime-events.ts:146-371 | the same for the whole result |
| RuntimeEvents.NormalizedAddsResponses | apps/server/src/channel-runtime-events.ts:361-370 | the end of the result adds only response states |
| RuntimeEvents.EventsFollowTheLog | apps/server/src/channel-runtime-events.ts:146-360 | every emitted event comes from its entry, with the fields of that entry, in the order of the entries and in a fixed order within one; no entry's own event is missing |
| RuntimeEvents.OwnEventsExactlyForEntries | apps/server/src/channel-runtime-events.ts:173-360 | compactions, requests, starts, ends, steps, direct calls and results, retries, messages and memory activity appear exactly for the entries that are them, with the same fields |
| RuntimeEvents.NormalizedIsTold | apps/server/src/channel-runtime-events.ts:146-371 | the same for the whole result, with the response states at its end |
| RuntimeEvents.MarksKnowWhoWaits | apps/server/src/channel-runtime-events.ts:226-231 | the held trigger is the last admission logged since the last start while no turn was open |
| RuntimeEvents.TriggeredByTheFirstCandidate | apps/server/src/channel-runtime-events.ts:163-167 | a trigger is emitted for a turn exactly when it is the turn's first candidate |
| RuntimeEvents.EachTurnHasOneTrigger | apps/server/src/channel-runtime-events.ts:163-167 | no turn gets two triggers |
| RuntimeEvents.TriggerOfATurn | apps/server/src/channel-runtime-events.ts:153-167 | a turn that starts once is triggered by the last admission that waited for it, else by the first logged in it before any model output, and by nothing else |
| RuntimeEvents.FirstTokenOfEachStep | apps/server/src/channel-runtime-events.ts:312-318 | a step's first-token event is that of its first stream that had one, and no step gets two |
| RuntimeEvents.NestedCallsJoinTheirProgram | apps/server/src/channel-runtime-events.ts:250-280 | a nested call appears exactly when its program was called before, in the turn and step of the program's latest call |
| RuntimeEvents.TurnsAreTheStartedOnes | apps/server/src/channel-runtime-events.ts:361-369 | one response state for every started turn, in the order of first starts |
| RuntimeEvents.NormalizeSessionEvents | apps/server/src/channel-runtime-events.ts:146-371 | the result is what the entries give rise to, in their order and each with its entry, followed by one response state for each started turn |
| RuntimeEvents.AssignTrigger | apps/server/src/channel-runtime-events.ts:163-167 | a second trigger of a turn is dropped |
| RuntimeEvents.StartTurn | apps/server/src/channel-runtime-events.ts:199-211 | a start takes the held trigger and the held inputs |
| RuntimeEvents.TakeMessage | apps/server/src/channel-runtime-events.ts:212-233 | a message joins the open turn or waits |
| RuntimeEvents.TakeFirstToken | apps/server/src/channel-runtime-events.ts:313-318 | only the first token of a step is emitted |

## Left out

- DataMoveProtocol.Desktop.UndoDataMove: does not restore a marker of an earlier move or the link of a rewritten path record, because the code does not either.
- DataMoveProtocol.Desktop.PathRecordFiles: does not model the entries behind links, which lead out of both trees.
- DataMoveProtocol.Desktop.RestoreOriginals: takes a path record's text to be valid UTF-8; the code would put back replacement characters for anything else.
- DataMoveProtocol.Desktop.CopyLeaf: does not model hashes, sizes, modes and times; a failed check is a step that fails.
- DataMoveProtocol.Desktop.RemoveRecursively: removes entries in any order; the order of the file system's walk plays no part.
- MovePlan.ListMoveUnits: does not model the sorted order of directory listings, because no result depends on it.
- Preflight.PreflightMove: does not model how paths are resolved and storage is classified, the size of what is kept, the time estimate, and that rounding may ask for one byte more than a tenth above; a dangling link is taken for a missing directory.
- Preflight.PassedRootsAreUnrelated: speaks of the roots as spelled; the resolved path of a linked source is one more prefix, which the checks do not compare.
- Confinement.SeatbeltForms: network and signal forms are present as text and have no meaning in the model.
- ConfinedArgv.ExtendConfinedArgv: requires Landlock arguments in pairs, because the code asserts that each flag has its path; what stands behind `-p` is a profile.
- RuntimeEvents.NormalizeSessionEvents: does not model texts, previews, usage, delivery states and times carried along.
- ReplyGuard.ReplyGuard.PreStepHook: does not bound the processing reminders of a turn between giving one and logging it.
- Backlog.SelectBacklog: does not model the summary notice for folded messages.
- Temporary files of atomic writes that a crash leaves behind.
- Process ids, heartbeats as a sign of life, and the app's single-instance lock.
- Parsing of stored files, URL normalization (which is not idempotent for an explicit default port) and display names.
- Waiting for and forcing the shutdown of a child process; a child exits at any time or never.
- Windows and views, pairing and transport security, storage classification, addons, memory events and token usage.

# The controlled-editing engine of bridge_core

This project models the engine that lets a client change files of a workspace in a controlled way,
and proves what it is there for.

- **Sessions** (`Sessions`, `SessionStore`, `SessionRuns`, `StagingOrder`, `RiskHints`). Edits are
  staged as change records, one file each, and replayed file by file into a plan (`Plan`, `Edits`,
  `Selectors`, `TextLines`). A session is checked for drift against the disk and rebased where its
  edits still fit (`Recovery`), and is committed file by file through the patch layer (`Commit`); a
  commit that stops can be undone, or tried again once other calls have cleared the way (`Spared`,
  `Retry`, `Twice`, `DoubleInsert`).
- **The patch layer** (`PatchStore`, `StoreRuns`, `Undo`, `Encoding`, `Diff`, `History`). Previews
  have ids with a life (pending, applied, expired, evicted, invalid); applying checks the base that
  was previewed, backs the old file up and keeps its line ends and byte order mark; backups roll a
  file back; a log is rotated; a one-hunk context diff shows a change. `Previews` says what previews
  of a file and of a session show.
- **Structured rewriters** (`JsonText`, `JsonLayouts`, `JsonRoundTrip`, `JsonPaths`, `YamlText`,
  `YamlLayouts`, `YamlRoundTrip`, `Markdown`, `Sections`). A JSON reader and pretty-printer with edits
  by key path, a YAML subset reader and printer, and Markdown section surgery. `StagedEdits`,
  `EditCommits` and `MarkdownCommits` follow a JSON edit and a Markdown upsert from the edit call to
  the committed file.
- **The flat record codec** (`FlatRecord`, `ChangeRecord`, `ChangeRoundTrip`, `RecordJson`). Change
  records are read by scanning for a quoted key and a colon anywhere in their text.

`Text` and `Names` hold what the code takes from the standard library: substring search, blanks,
decimal numbers, and the order of names in `std::map` and sorted listings.

Where the program works step by step, the model does: `Session`, `PatchStore`, `HistoryLog`,
`JsonParser` and `YamlLineCursor` are classes whose methods update their fields, and loops are
methods with invariants. Each method is proved against a function on values (`DoCommit`, `DoApply`,
`ParseJson`, ...), and the theorems are about these functions. Runs are sequences of calls with
anything else happening to the disk in between.

## How the surroundings appear

- A `char` stands for a byte. Nothing depends on its range.
- A path is its normalized relative path. The path policy is a parameter that calls each path
  allowed, denied or outside the workspace.
- The content hash, the two ways a write time is shown and the time that passes before a call are
  parameters too (`Config`); nothing is asked of the hash, not even that it tells contents apart.
- The clock moves on with every call. Preview and backup ids are its readings, so they are fresh;
  directories that the code sorts by write time are lists in writing order.
- Retention counts, the preview time limit and the rotation size are parameters, 0 included.

## What turned out not to hold, and exactly when it does

Each entry names the theorem with the exact condition and a lemma with a failing input.

- A change record whose risk hint has an empty level, an empty reason, a comma in a reason, or
  braces that close too early or leave more than one open, is not read back as stored
  (`StoreThenLoad`, `CommaIsSplit`). The hints the program computes itself are always kept
  (`HintsAreStorable`).
- `session_drop_change` also drops changes whose file name merely contains the id (`DropIsExact`,
  `DropOfJson`).
- Staging order is file-name order only up to 9999 changes (`StagedInOrder`, `NamesOutOfOrder`).
- A commit stops at a file whose new content holds a NUL only after writing it, does not report it,
  and leaves the session in the writing state (`CommitStops`, `ReportedUndone`, `NulStops`).
- A commit that stopped does not go through later, under the same policy, until the file it stopped
  at is touched, unless only a preview had expired (`NoRetryUntouched`, `DropAndRetry`). One that
  goes through replays the files already written a second time (`RetryWrites`). Such a file keeps its
  bytes exactly when that replay gives the text it has (`RetryKeeps`): with a single change and no
  byte order mark, exactly when the change settles (`SingleChangeTwice`, `InsertLandsTwice`); with
  insertions alone it grows by what they insert, and by its mark if it has one (`InsertionsTwice`);
  several changes may settle together though none does alone (`InsertedAndDeleted`).
- A file that starts with a byte order mark takes no JSON edit as long as the session's content of it
  starts with the mark (`JsonEditFollowed`, `MarkedRefused`).
- A session keeps a byte order mark in its contents while the patch layer writes one of its own:
  a marked file is never written as planned (`WrittenAsIs`, `MarkIsDoubled`). Nor is a file whose
  line ends are mixed restored byte for byte by a rollback (`RollbackInvertsApply`,
  `MixedEndsLost`, `MixedFileLost`).
- A backup can be rolled back onto another path, one with the same sanitized name (`SharedExactly`,
  `SharedBackup`).
- YAML lists of containers are printed in a form the reader does not accept (`YamlReadsBack`,
  `ListInListLost`).
- A Markdown heading that is the unterminated last line gets its new body glued on
  (`UpsertIsIdempotent`, `HeadingGlued`).
- The counts a session takes from a diff miss added lines that start with `++` and removed lines
  that start with `--` (`DiffIsCounted`, `PlusPlusMissed`).
- A replaced line range leaves lines that do not split again when the file ends in an open empty
  line (`ReplacedRangeLines`, `EmptyLineLost`).
- An evicted preview is reported as evicted only while its status is kept (`EvictionIsReported`,
  `EvictionForgets`).

## Model

| member | source | states |
|---|---|---|
| `SessionRuns.CommitWritesPlan` | libs/bridge_core/src/session_service.cpp:1220-1342 | after a successful commit each staged file holds the replay of its own staged changes over its old bytes, laid out with the line ends and byte order mark of the file it replaces; every other file is untouched |
| `SessionRuns.CommitStops` | libs/bridge_core/src/session_service.cpp:1220-1342 | a commit of a ready session succeeds exactly when every planned file can be committed (path allowed, old file text, preview not expired, new content without NUL); if it stops, exactly the files before the first that cannot are written and backed up, plus that one if only a NUL stopped it, and the session is left in the writing state |
| `Commit.CommitComes` | libs/bridge_core/src/session_service.cpp:1272-1305 | the same for every disk and every plan of distinct paths, file by file in plan order; each file done is reported by its path, its preview, its backup and the hash it now has |
| `Commit.OneFile` | libs/bridge_core/src/session_service.cpp:1279-1296 | one file: previewed and applied against the base just previewed; done if and only if it can be written and holds no NUL, written whenever it can be; nothing else on the disk but its backup changes |
| `Commit.CommitUndone` | libs/bridge_core/src/patch_service.cpp:954-1032 | undoing any commit, finished or stopped: rolling back the files it wrote, in any order and within the backup retention, restores each and leaves the rest; the old bytes are back everywhere if and only if the written files that existed had canonical line ends |
| `Commit.ReportedUndone` | libs/bridge_core/src/session_service.cpp:1289-1305 | rolling back only what a commit reports as done restores the workspace if and only if no NUL stopped it, whose file is written but not reported, and the reported files that existed had canonical line ends |
| `Commit.ReportedTargets` | libs/bridge_core/src/session_service.cpp:1303-1304 | the j-th reported file names the backup of the j-th planned file |
| `Commit.UndoFirst` | libs/bridge_core/src/patch_service.cpp:954-1032 | rolling back some of the files a commit wrote restores those and leaves what the commit made of the others |
| `Commit.NulStops` | libs/bridge_core/src/session_service.cpp:1289-1296 | a new file whose content is NUL is written and the commit stops with nothing reported |
| `Commit.CommitSaves` | libs/bridge_core/src/session_service.cpp:1272-1305 | however far a commit came, each file it wrote has its backup, holding what the file had before, within the backup retention |
| `SessionRuns.SessionLife` | libs/bridge_core/src/session_service.cpp:940-1452 | over every run of session calls, with anything happening to the disk in between: a created session has no changes, a staged, previewed or half-written one has some, and validating and verifying are never left behind by a call |
| `SessionRuns.ClosedForGood` | libs/bridge_core/src/session_service.cpp:804-811 | committed and aborted are closed and aborted is terminal: no session call changes the staged changes, the commit record or the disk any more |
| `SessionRuns.OnlyCommitWrites` | libs/bridge_core/src/session_service.cpp:1107-1452 | of all session calls only the commit of a ready session changes workspace files |
| `SessionRuns.RebaseUnblocks` | libs/bridge_core/src/session_service.cpp:1550-1596 | after a rebase that goes through, disk unchanged, the check finds every file clean, so the session is ready exactly when it has a plan, and it has one if and only if the files that were clean all along replay |
| `SessionRuns.RebaseGranted` | libs/bridge_core/src/session_service.cpp:1550-1562 | a rebase of an active session goes through if and only if every staged file can be read and none is in conflict |
| `SessionRuns.RebasePlansTrial` | libs/bridge_core/src/session_service.cpp:1550-1596 | a rebased file is planned with exactly the content the check's own replay computed |
| `Retry.StoppedPath` | libs/bridge_core/src/session_service.cpp:1220-1342 | what a stopped commit leaves of each path: one replay where it wrote, else the old bytes |
| `Retry.RetryWrites` | libs/bridge_core/src/session_service.cpp:1220-1342 | after a stopped commit and any session calls and outside actions that leave a path alone, a commit that goes through makes of it one more replay of its own changes on what the first commit left; so a path the first had not reached ends with a single replay, and one without changes with its old bytes |
| `Retry.WholeFileOnce` | libs/bridge_core/src/session_service.cpp:1220-1342 | such a path, written by the first commit, with a whole-file change among its changes, ends as the first commit left it, exactly unless it was written without a byte order mark and starts with one |
| `Retry.StopsAt` | libs/bridge_core/src/session_service.cpp:1272-1305 | a stopped commit wrote the files of its plan in front of the first that cannot be committed, and that one only if a NUL stopped it |
| `Retry.NoRetryUntouched` | libs/bridge_core/src/session_service.cpp:1272-1305 | until the file a commit stopped at is touched, on the disk or in the session, no later commit goes through under the same policy, whatever else is called or happens, unless an expired preview was all that stopped it |
| `Retry.DropAndRetry` | libs/bridge_core/src/session_service.cpp:1415-1452 | the path a commit stopped at can be dropped, and after a rebase the next commit goes through if and only if the rebase did, no preview expires, the files already written replay once more without a NUL, and the files behind are allowed, text, and planned without a NUL |
| `SessionRuns.CommitFits` | libs/bridge_core/src/session_service.cpp:1255-1305 | a commit that the check does not hold back goes through if and only if every staged file is allowed, text, and replays to a content without a NUL, and no preview expires on the way |
| `Spared.SparedRun` | libs/bridge_core/src/session_service.cpp:940-1596 | over any run of session calls and outside actions that neither edit, drop nor write a path, the path keeps its bytes and the session the same edits of it: none, or changes that replay alike on any content, though a rebase rewrites them |
| `Spared.RebaseSpares` | libs/bridge_core/src/session_service.cpp:1550-1596 | a rebase, refused or not, leaves every path with changes that replay alike on any content |
| `Twice.RetryKeeps` | libs/bridge_core/src/session_service.cpp:1220-1342 | a path written by both commits keeps its bytes if and only if its changes, replayed on these bytes, give the text in the file, carriage returns aside |
| `Twice.SingleChangeTwice` | libs/bridge_core/src/session_service.cpp:1220-1342 | a path with a single change, written without a byte order mark, whatever its line ends, is left byte for byte by the second commit if and only if the change settles: it rewrites the file, or replaces a block or range by one of the same kind, carriage returns aside |
| `Twice.InsertionsTwice` | libs/bridge_core/src/session_service.cpp:1220-1342 | a path whose changes are all insertions grows on the second commit by exactly what they insert, laid out as the file is, and by another byte order mark if it has one |
| `DoubleInsert.InsertLandsTwice` | libs/bridge_core/src/session_service.cpp:1220-1342 | two staged files, a commit that stops at the second, a drop, a rebase and a commit that goes through: the file holding a, with b inserted once, ends as abb |
| `DoubleInsert.InsertedAndDeleted` | libs/bridge_core/src/session_service.cpp:629-682 | an insertion and the deletion of what it inserted replay to the content they started from, though neither settles |
| `Recovery.RebaseIsClean` | libs/bridge_core/src/session_service.cpp:1478-1596 | for any staged changes, stored and read back through the record codec: the check after a rebase finds every file clean |
| `Recovery.RebaseReplays` | libs/bridge_core/src/session_service.cpp:1478-1596 | a rebased file replays, to exactly the content the check computed; any other staged file replays as before |
| `Recovery.RebasePlans` | libs/bridge_core/src/session_service.cpp:1478-1596 | there is a plan after a rebase if and only if the files that were clean all along replay |
| `Recovery.RecoveryCheck` | libs/bridge_core/src/session_service.cpp:1478-1548 | the loops give every staged file, in path order, its status from its first change's base and the check's own replay |
| `Recovery.TryChanges` | libs/bridge_core/src/session_service.cpp:1514-1533 | the inner loop is the replay that skips and reports changes that no longer fit |
| `Recovery.TrialIsExact` | libs/bridge_core/src/session_service.cpp:1514-1533 | the check's trial goes through if and only if each change still fits what the ones before it leave, and the changes then replay |
| `Recovery.StatusIsExact` | libs/bridge_core/src/session_service.cpp:1506-1546 | the status of a file, for any changes: clean while it shows the base of its first change, where recorded; else due for a rebase if each change still fits what the ones before it leave, else in conflict |
| `Recovery.FitIsExact` | libs/bridge_core/src/session_service.cpp:684-718 | a change still fits a content if the content is the expected one, or has the expected lines in the range, or has the target and its query is what was expected; and its operation is known |
| `Recovery.ForeignEditConflicts` | libs/bridge_core/src/session_service.cpp:687-703 | a drifted file whose first change replaces the whole file and expected other content, or replaces lines that are others by now, is in conflict |
| `Recovery.CleanIsExact` | libs/bridge_core/src/session_service.cpp:1478-1548 | a check finds nothing to rebase and no conflict if and only if every staged file can be read and shows the base of its first change |
| `SessionRuns.ReadyIsExact` | libs/bridge_core/src/session_service.cpp:1225-1254 | a session is ready if and only if it is active and each staged file is in the workspace, is on the base of its first change, and takes its changes one after another |
| `SessionRuns.CommitIsExact` | libs/bridge_core/src/session_service.cpp:1220-1342 | a session is committed if and only if it is active, each staged file is on the base of its first change, is allowed, text, and replays to a content without a NUL, and no preview expires on the way |
| `SessionRuns.ForeignEditIsKept` | libs/bridge_core/src/session_service.cpp:1225-1246 | a file written since its first change was staged, to another hash or at another time, stops preview and commit, which change nothing; and stops the rebase too if that change expected other content or other lines |
| `Recovery.GroupChanges` | libs/bridge_core/src/session_service.cpp:1493-1494 | the map from paths to their own changes, in staging order |
| `Recovery.MarkedFiles` | libs/bridge_core/src/session_service.cpp:1495-1546 | the check's list holds each staged file in path order, with the base it was staged on and the hash it has now, and marks exactly the files that are due for a rebase |
| `Plan.BuildPlannedFiles` | libs/bridge_core/src/session_service.cpp:748-797 | the loop over all changes, with its map of planned files, computes one replay per file, or fails |
| `Plan.PlanIsPerFile` | libs/bridge_core/src/session_service.cpp:748-797 | a plan exists if and only if every staged file replays; it holds each staged path once, in strict order, with the left fold of that file's changes over its disk content |
| `Plan.PlanIgnoresInterleaving` | libs/bridge_core/src/session_service.cpp:748-797 | lists of changes with the same changes per file have the same plan, or none |
| `Plan.ReplaysPrefix` | libs/bridge_core/src/session_service.cpp:748-797 | a file that does not replay is not repaired by later changes |
| `Plan.WholeFileForgets` | libs/bridge_core/src/session_service.cpp:748-797 | behind a whole-file change a replay no longer depends on where it started |
| `SessionRuns.DropLeavesPlan` | libs/bridge_core/src/session_service.cpp:1415-1452 | after session_drop_path there is a plan if and only if every other staged file replays, and it is the old plan without the dropped file, if there was one |
| `SessionRuns.DropChangeLeavesPlan` | libs/bridge_core/src/session_service.cpp:1368-1413 | after a drop by an id that names no other file there is a plan if and only if the changes each file keeps replay on their own, and it holds those replays |
| `Plan.DropPlanIs` | libs/bridge_core/src/session_service.cpp:748-797 | the plan without a path: the entries of the other files, each as its own changes make it |
| `Plan.DropChangePlans` | libs/bridge_core/src/session_service.cpp:748-797 | the plan without the changes of an id, file by file |
| `SessionRuns.DropIsExact` | libs/bridge_core/src/session_service.cpp:1368-1413 | drop_change removes exactly the changes of the given id if and only if the id occurs in no other change's file name |
| `SessionRuns.DropOfJson` | libs/bridge_core/src/session_service.cpp:1387-1396 | dropping the id json removes a change of any other id: the match on file names is not exact |
| `StagingOrder.StagedInOrder` | libs/bridge_core/src/session_service.cpp:344-369 | a session to which changes are only added reads them back in staging order, whatever their ids, if and only if there are at most 9999 |
| `StagingOrder.NamesInOrder` | libs/bridge_core/src/session_service.cpp:551-557 | padded ordinals up to 9999 sort file names by ordinal |
| `StagingOrder.NamesOutOfOrder` | libs/bridge_core/src/session_service.cpp:551-557 | the ten-thousandth change file sorts before its predecessor |
| `RiskHints.HintsAreStorable` | libs/bridge_core/src/session_service.cpp:514-549 | the risk hint computed for any change survives being stored, also when a whole-file rewrite adds to it |
| `RiskHints.ReasonsSay` | libs/bridge_core/src/session_service.cpp:514-541 | each reason is given if and only if what it says is the case |
| `RiskHints.LevelSays` | libs/bridge_core/src/session_service.cpp:542-548 | high for several candidates, a deletion or twenty new lines, else medium for any reason; a rewrite of 512 bytes and more is never low |
| `RiskHints.StagedWithHint` | libs/bridge_core/src/session_service.cpp:1755-1783 | a change staged with its own hint, by whichever edit call, is read back exactly as it was staged |
| `Sessions.FilledFields` | libs/bridge_core/src/session_service.cpp:977-1019 | adding a change sets its session and fills in an id, a time, a reason and an anchor where they are empty, and touches nothing else |
| `SessionRuns.CallsAnswer` | libs/bridge_core/src/session_service.cpp:940-1452 | a session begins under any name but the empty one, takes changes and gives them back while it is active, and is aborted whenever it exists; what cannot be dropped is refused |
| `SessionStore.Session.Begin` | libs/bridge_core/src/session_service.cpp:940-975 | starts a session once; an existing one is left as it is |
| `SessionStore.Session.Add` | libs/bridge_core/src/session_service.cpp:977-1019 | fills in the empty fields, writes the change file and marks the session staged; refused on a closed session |
| `SessionStore.Session.SaveChange` | libs/bridge_core/src/session_service.cpp:551-557 | one more change file under the next ordinal, in its place by name; a file of the same name is overwritten |
| `SessionStore.Session.LoadChanges` | libs/bridge_core/src/session_service.cpp:357-369 | the stored changes, in the order of the file names |
| `SessionStore.Session.Prepare` | libs/bridge_core/src/session_service.cpp:1225-1254 | the plan of an active session whose check finds every file clean, else nothing |
| `SessionStore.Session.PreviewAll` | libs/bridge_core/src/session_service.cpp:1107-1218 | previews the planned files in order, stopping at the first failure; the state changes only if all went through and there was something to preview |
| `SessionStore.Session.CommitPlan` | libs/bridge_core/src/session_service.cpp:1220-1342 | runs the commit through its states file by file; disk, session and record end as the specification of a commit says |
| `SessionStore.Session.Abort` | libs/bridge_core/src/session_service.cpp:1344-1365 | marks any existing session aborted, also a committed one |
| `SessionStore.Session.DropChange` | libs/bridge_core/src/session_service.cpp:1368-1413 | removes the change files whose id or file name matches; the session is created again once none is left |
| `SessionStore.Session.DropPath` | libs/bridge_core/src/session_service.cpp:1415-1452 | removes the change files of one path, with the same consequence |
| `SessionStore.Session.Rebase` | libs/bridge_core/src/session_service.cpp:1550-1596 | rewrites in place the change files of the files due for a rebase, and no others; refused on a conflict |
| `Edits.ApplyChangeToContent` | libs/bridge_core/src/session_service.cpp:629-682 | computes the specified edit for each operation, range edits line by line |
| `Edits.ResolveCandidate` | libs/bridge_core/src/session_service.cpp:590-619 | the occurrence asked for, counted from either end, or nothing |
| `Edits.ReplacedRangeLines` | libs/bridge_core/src/session_service.cpp:639-656 | after replace_range the text splits into the lines before, the new lines and the lines behind, if and only if no empty open last line is left |
| `Edits.OperationNames` | libs/bridge_core/src/session_service.cpp:629-677 | the names of the operations |
| `Edits.RangeEdit` | libs/bridge_core/src/session_service.cpp:639-658 | of a content whose lines are known, the lines of the range give way to those of the new content, with a final newline if either content has one; and the change fits if and only if the lines of the range, joined, are what was expected |
| `Edits.NoRangeEdit` | libs/bridge_core/src/session_service.cpp:641-644 | a range that starts at line 0, ends before it starts, or ends behind the last line is neither edited nor rebased |
| `Edits.BlockEdit` | libs/bridge_core/src/session_service.cpp:661-673 | a block edit happens where the query stands: it replaces it, goes in front of it or behind it, or deletes it; and it fits if and only if nothing or just the query was expected |
| `Edits.NoBlockEdit` | libs/bridge_core/src/session_service.cpp:661-677 | without a target, or with an unknown operation, nothing is edited |
| `Edits.EmptyLineLost` | libs/bridge_core/src/session_service.cpp:639-656 | deleting the last line behind an empty one loses the empty line too |
| `Edits.AppliedTwice` | libs/bridge_core/src/session_service.cpp:629-682 | making any change again on what it made leaves that unchanged if and only if it rewrites the whole file, replaces lines by as many, replaces the query by itself, or inserts nothing |
| `Edits.EditDrift` | libs/bridge_core/src/session_service.cpp:658-718 | text put in front of a file without making an earlier occurrence of the query: block edits commute with it, fail together, and stay rebasable alike |
| `Edits.RebaseableApplies` | libs/bridge_core/src/session_service.cpp:684-718 | a change that can be rebased can be applied, unless its operation is unknown |
| `Edits.RebasedBlock` | libs/bridge_core/src/session_service.cpp:684-718 | a rebased block edit still meets the text it was staged against and edits exactly there |
| `Selectors.LocateCandidates` | libs/bridge_core/src/session_service.cpp:563-588 | the search loop computes the specified candidates |
| `Selectors.CandidatesAreGreedy` | libs/bridge_core/src/session_service.cpp:563-588 | the candidates are, in order and numbered from 1, exactly those of the leftmost matches that do not overlap which have the one anchor text somewhere up to their start and the other somewhere from their end |
| `Selectors.NumberedRises` | libs/bridge_core/src/session_service.cpp:563-588 | candidates are numbered from left to right |
| `Selectors.NumberedHolds` | libs/bridge_core/src/session_service.cpp:563-588 | every match with its anchors has a number |
| `Selectors.ResolvedByNumber` | libs/bridge_core/src/session_service.cpp:590-620 | the target is the candidate whose number is the occurrence, from the front or from the end; none for occurrence 0, beyond the last, and without a query |
| `Selectors.GreedyUnique` | libs/bridge_core/src/session_service.cpp:569-587 | there is only one list of leftmost non-overlapping matches that covers every occurrence |
| `Selectors.MatchesGreedy` | libs/bridge_core/src/session_service.cpp:569-587 | searching on behind each match gives that list |
| `Selectors.FromEndIsForward` | libs/bridge_core/src/session_service.cpp:606-617 | occurrence k from the end is occurrence n + 1 - k from the front |
| `Selectors.CandidatesDrift` | libs/bridge_core/src/session_service.cpp:563-588 | text in front without an earlier occurrence shifts every candidate by its length and changes nothing else |
| `Selectors.ResolveInside` | libs/bridge_core/src/session_service.cpp:590-619 | a resolved candidate is a place in the content where the query stands |
| `TextLines.MakeDocument` | libs/bridge_core/src/session_service.cpp:385-402 | the character loop gives the lines without carriage returns and the trailing-newline flag |
| `TextLines.JoinDocument` | libs/bridge_core/src/session_service.cpp:425-433 | joins lines, with a final newline if asked |
| `TextLines.JoinOfSplit` | libs/bridge_core/src/session_service.cpp:385-433 | splitting and joining drops the carriage returns and nothing else, for every content |
| `TextLines.SplitOfJoin` | libs/bridge_core/src/session_service.cpp:385-433 | joined lines split into the same lines if and only if no empty last line is left open |
| `RecordJson.StoredIsJson` | libs/bridge_core/src/session_service.cpp:257-284 | whatever a change holds, its stored text parses as the JSON object of its fields and its risk, in writing order, by the other reader of the program |
| `ChangeRoundTrip.StoreThenLoad` | libs/bridge_core/src/session_service.cpp:232-326 | a stored change is read back unchanged, whatever its strings contain, if and only if its risk hint is storable (level and reasons non-empty, no comma, braces balanced as stored); every other field always survives |
| `ChangeRoundTrip.CommaIsSplit` | libs/bridge_core/src/session_service.cpp:232-326 | a record whose one reason holds a comma is not read back as stored |
| `ChangeRoundTrip.RiskRoundTrip` | libs/bridge_core/src/session_service.cpp:232-255 | the risk object cut out by counting braces gives the hint back exactly when it is storable |
| `ChangeRoundTrip.SplitOfCsv` | libs/bridge_core/src/session_service.cpp:245-255 | splitting the comma-separated reasons gives non-empty, comma-free reasons back |
| `ChangeRecord.SerializeRisk` | libs/bridge_core/src/session_service.cpp:232-243 | writes the risk object |
| `ChangeRecord.DeserializeRisk` | libs/bridge_core/src/session_service.cpp:245-255 | reads the level and the reasons of a risk object |
| `ChangeRecord.ReadRisk` | libs/bridge_core/src/session_service.cpp:308-324 | finds the risk object behind its key by counting braces |
| `FlatRecord.JsonEscape` | libs/bridge_core/src/protocol.cpp:624-638 | the loop writes the escaped value |
| `FlatRecord.JsonGetString` | libs/bridge_core/src/protocol.cpp:640-668 | the one-pass reader with its escaping flag reads up to the first quote that is not escaped |
| `FlatRecord.FindJsonValueStart` | libs/bridge_core/src/protocol.cpp:37-52 | scans on behind each quoted key that has no colon |
| `FlatRecord.JsonGetSize` | libs/bridge_core/src/session_service.cpp:86-96 | the number behind a key, or the fallback when there is none or it does not fit |
| `FlatRecord.NoStrayKey` | libs/bridge_core/src/protocol.cpp:37-52 | inside a rendered field no key followed by a colon can be seen but the field's own, whatever the value holds |
| `FlatRecord.ScanReaches` | libs/bridge_core/src/protocol.cpp:37-52 | the scan skips every false sighting and stops at the first true one |
| `FlatRecord.ScanFindsField` | libs/bridge_core/src/protocol.cpp:37-52 | in a rendered record the scan for a key lands on that key's own value |
| `FlatRecord.KeySeen` | libs/bridge_core/src/protocol.cpp:37-52 | a key is seen wherever it stands in quotes in front of a colon, blanks aside |
| `FlatRecord.MissingRead` | libs/bridge_core/src/protocol.cpp:37-52 | without its key a string reads as empty, a number and a flag as the fallback |
| `FlatRecord.StringRead` | libs/bridge_core/src/protocol.cpp:624-668 | a string field reads back as the string that was written |
| `FlatRecord.SizeRead` | libs/bridge_core/src/session_service.cpp:86-96 | a number field reads back as the number that was written |
| `Previews.PreviewAnswers` | libs/bridge_core/src/patch_service.cpp:689-745 | a preview in full: why it is refused, or the diff from what is there to the content, both hashes, the write time, and applicable if and only if every part of the base that is given is the file's own |
| `Previews.DiffShows` | libs/bridge_core/src/patch_service.cpp:588-626 | a diff names the path and says that nothing changes, or holds one hunk that turns the old lines into the new ones behind a header with its own counts |
| `Previews.SessionPreviewAnswers` | libs/bridge_core/src/session_service.cpp:1107-1218 | a session preview answers if and only if the session is active and each staged file is on its base, takes its changes, is allowed, and is text; it then goes over the staged files in path order, each with the change to the replay of its own changes, the counts of that diff, and a preview that holds this replay as long as it is kept |
| `Previews.PreviewsCome` | libs/bridge_core/src/session_service.cpp:1147-1190 | the loop, file by file: it stops at the first file that cannot be previewed, and leaves the newest previews pending |
| `Undo.DirectAnswers` | libs/bridge_core/src/patch_service.cpp:806-952 | an apply without a preview in full: why it is refused, or that the file is written in its own layout and reported by its new time and hash, or as binary if the content holds a NUL |
| `Undo.PreviewedAnswers` | libs/bridge_core/src/patch_service.cpp:806-952 | an apply through a preview that can be loaded in full: path, content and base that are given must be those of the preview, the file must be as it was previewed, and what is written is the preview's content |
| `Undo.RollbackAnswers` | libs/bridge_core/src/patch_service.cpp:954-1032 | a rollback in full: why it is refused, or what is reported of the file |
| `Undo.ApplyRetains` | libs/bridge_core/src/patch_service.cpp:806-952 | an apply that writes keeps no more backups, and through a preview no more statuses, than the retention allows |
| `Undo.SameName` | libs/bridge_core/src/patch_service.cpp:321-334 | which paths are filed under the same name: those that differ only in underlines and characters other than letters, digits, dots and dashes |
| `Undo.ReportIsBase` | libs/bridge_core/src/patch_service.cpp:806-952 | the time and hash an apply reports are a base the next apply accepts |
| `StoreRuns.AppliedAtMostOnce` | libs/bridge_core/src/patch_service.cpp:806-952 | in every run a preview is applied at most once; a later apply through its id fails and moves nothing but the clock |
| `StoreRuns.AppliedAsPreviewed` | libs/bridge_core/src/patch_service.cpp:689-745 | what is applied through an id is what was previewed under it: same path, same write time and content hash of the file, not expired, and content of the same hash, or the very content if no preview was damaged in between |
| `StoreRuns.NeverPendingAgain` | libs/bridge_core/src/patch_service.cpp:417-556 | an id that is not pending, although the clock has passed it, never becomes pending again |
| `StoreRuns.PreviewIsPending` | libs/bridge_core/src/patch_service.cpp:689-745 | the preview just made is the last pending one, never the evicted one, and the pending ones do not exceed a positive keep count |
| `StoreRuns.NoLostUpdate` | libs/bridge_core/src/patch_service.cpp:806-888 | once the file has another content hash or write time than at its preview, applying the preview writes nothing |
| `StoreRuns.ReapplyIsReported` | libs/bridge_core/src/patch_service.cpp:472-482 | applying a preview a second time reports that it was applied |
| `StoreRuns.FailedLoadDiscards` | libs/bridge_core/src/patch_service.cpp:472-533 | a pending preview that cannot be loaded is gone, as expired if its time was over, else as invalid because something of it was damaged |
| `StoreRuns.EvictsOldest` | libs/bridge_core/src/patch_service.cpp:535-556 | eviction takes the oldest previews, and no more than it must |
| `StoreRuns.EvictionForgets` | libs/bridge_core/src/patch_service.cpp:396-415 | two previews evicted at once where one status is kept: the older is reported as evicted, the newer is unknown |
| `StoreRuns.EvictionIsReported` | libs/bridge_core/src/patch_service.cpp:396-415 | the i-th oldest evicted preview is reported as evicted if and only if statuses are kept without bound or more than i of them are; else its id is forgotten |
| `StoreRuns.StepFollows` | libs/bridge_core/src/patch_service.cpp:359-556 | every operation keeps the lists sound and brings no preview back |
| `PatchStore.MarkEvictedSettled` | libs/bridge_core/src/patch_service.cpp:535-556 | evicting previews leaves each id either pending or with one status |
| `PatchStore.PatchStore.PatchPreview` | libs/bridge_core/src/patch_service.cpp:689-745 | records the preview with the state just read, returns its diff, and evicts beyond the keep count |
| `PatchStore.PatchStore.LoadPreview` | libs/bridge_core/src/patch_service.cpp:472-533 | a pending preview, or the reason why there is none; expired and damaged ones are discarded with their status |
| `PatchStore.PatchStore.PatchApply` | libs/bridge_core/src/patch_service.cpp:806-952 | checks path, content and base against the preview, then writes |
| `PatchStore.PatchStore.WriteFile` | libs/bridge_core/src/patch_service.cpp:848-952 | checks the base and the policy, backs up, writes in the old layout, and uses the preview up |
| `PatchStore.PatchStore.PatchRollback` | libs/bridge_core/src/patch_service.cpp:954-1032 | restores the backup of the path, or removes the file that did not exist |
| `PatchStore.PatchStore.CleanupPreviews` | libs/bridge_core/src/patch_service.cpp:535-556 | evicts all but the newest previews, newest of them first, and leaves a status for each |
| `PatchStore.RemoveOldest` | libs/bridge_core/src/patch_service.cpp:269-292 | the clean-up loop removes all but the newest items |
| `PatchStore.PatchStore.CleanupStatuses` | libs/bridge_core/src/patch_service.cpp:396-415 | keeps the newest statuses |
| `PatchStore.PatchStore.CleanupBackups` | libs/bridge_core/src/patch_service.cpp:269-292 | keeps the newest backups |
| `Undo.RollbackInvertsApply` | libs/bridge_core/src/patch_service.cpp:806-1032 | an apply, with or without a preview, rolled back at once: an absent file is absent again, no other file differs, and an existing file has its old bytes if and only if they were canonical |
| `Undo.MixedFileLost` | libs/bridge_core/src/patch_service.cpp:134-204 | a file with mixed line ends comes back from a rollback with another byte |
| `Undo.DirectApply` | libs/bridge_core/src/patch_service.cpp:806-952 | an apply without preview writes if and only if the path is allowed, the old file is text and each given part of the base still holds; it then changes that one file and backs it up, else no file and no backup |
| `Undo.PreviewForetells` | libs/bridge_core/src/patch_service.cpp:689-745 | a preview is called applicable exactly when a direct apply with the same base would then write |
| `Undo.SharedExactly` | libs/bridge_core/src/patch_service.cpp:321-342 | a backup can be rolled back onto another path if and only if both paths have the same sanitized name |
| `Undo.SharedBackup` | libs/bridge_core/src/patch_service.cpp:321-342 | the backup of a/b also rolls a_b back |
| `Undo.RollbackAnyOrder` | libs/bridge_core/src/patch_service.cpp:954-1032 | rollbacks in any order, some repeated: each path has what its backup saves, every other path is untouched |
| `Undo.RollbackRestores` | libs/bridge_core/src/patch_service.cpp:954-1032 | one rollback restores what its backup saves and touches no other file |
| `Undo.WrittenSaves` | libs/bridge_core/src/patch_service.cpp:889-933 | the backup written with a file holds what was there before, within the retention |
| `Encoding.EncodeText` | libs/bridge_core/src/patch_service.cpp:182-204 | the two loops drop carriage returns, put them before newlines if asked, and prefix the mark |
| `Encoding.WriteBack` | libs/bridge_core/src/patch_service.cpp:134-204 | a decoded file written back has its old bytes if and only if its line ends are canonical |
| `Encoding.WrittenIsStable` | libs/bridge_core/src/patch_service.cpp:134-204 | whatever was written is read back unless it holds a NUL, and is written again byte for byte |
| `Encoding.WrittenAsIs` | libs/bridge_core/src/patch_service.cpp:182-204 | a content is written as its own bytes if and only if the format has no byte order mark and the content already has its line ends, so a session never writes a marked file as planned |
| `Encoding.MixedEndsLost` | libs/bridge_core/src/patch_service.cpp:134-204 | writing back a file with mixed line ends adds a carriage return |
| `Encoding.MarkIsDoubled` | libs/bridge_core/src/patch_service.cpp:182-204 | the bytes of a marked file, written as a content in the file's own format, get a second mark |
| `Encoding.WrittenTwice` | libs/bridge_core/src/patch_service.cpp:134-204 | writing a content again over the file it made leaves the file alone, exactly unless the content starts with a mark of its own that the first write took for text |
| `Encoding.PairedRestored` | libs/bridge_core/src/patch_service.cpp:182-199 | taking carriage returns out and putting them back changes nothing on paired text |
| `Diff.MakeContextDiff` | libs/bridge_core/src/patch_service.cpp:588-626 | the loops write the specified header and hunk |
| `Diff.HunkPatches` | libs/bridge_core/src/patch_service.cpp:588-626 | applying the hunk to the old lines gives exactly the new lines |
| `Diff.HunkShape` | libs/bridge_core/src/patch_service.cpp:588-626 | three lines of context on each side, or all there are, and removed and added lines between them that share neither first nor last line |
| `Diff.HeaderCounts` | libs/bridge_core/src/patch_service.cpp:613-617 | the header counts the context and removed, and the context and added lines; added less removed is the change in length |
| `Diff.AnalyzeDiff` | libs/bridge_core/src/session_service.cpp:858-872 | the loop counts hunks, added and removed lines of a diff text |
| `Diff.DiffIsCounted` | libs/bridge_core/src/session_service.cpp:858-872 | counting the diff of a changed file, for every path: one hunk, the added lines that do not start with ++ and the removed ones that do not start with --, and twice whatever the further lines of a path with newlines look like |
| `Diff.DiffBalance` | libs/bridge_core/src/session_service.cpp:858-872 | for a path without newlines, added less removed as counted is the change in line count if and only if as many lines are missed on both sides |
| `Diff.PlusPlusMissed` | libs/bridge_core/src/session_service.cpp:858-872 | an added line ++x is not counted |
| `History.HistoryIsSuffix` | libs/bridge_core/src/patch_service.cpp:558-572 | in every run from any log, the rotated files, oldest first, and the live file are a suffix of everything held and appended, the newest record included, and no file numbered above keep is created or touched |
| `History.RotateLoses` | libs/bridge_core/src/patch_service.cpp:236-254 | a rotation loses the oldest of keep rotated files and nothing else |
| `History.RotatesInTime` | libs/bridge_core/src/patch_service.cpp:236-254 | over every run, each rotated file reached the size limit with its last record and not before, and the live file had not reached it before its last |
| `History.UnrotatedKeepsAll` | libs/bridge_core/src/patch_service.cpp:237-237 | with rotation switched off nothing is lost |
| `History.HistoryLog.MakeRoom` | libs/bridge_core/src/patch_service.cpp:242-252 | the loop moves each rotated file up by one, drops the keep-th, and leaves any numbered higher alone |
| `History.HistoryLog.RotateIfNeeded` | libs/bridge_core/src/patch_service.cpp:236-254 | rotates a full live file |
| `History.HistoryLog.AppendRecord` | libs/bridge_core/src/patch_service.cpp:558-572 | rotates if needed, then appends |
| `JsonLayouts.ReadsSpellings` | libs/bridge_core/src/structure_adapters.cpp:125-244 | the reader accepts exactly the texts that spell a value, with any blanks between the tokens, any number text and any escapes, and reads each as that value |
| `JsonLayouts.SpelledParses` | libs/bridge_core/src/structure_adapters.cpp:181-244 | a spelled value is read wherever it stands |
| `JsonLayouts.ValueFound` | libs/bridge_core/src/structure_adapters.cpp:181-244 | whatever is read was spelled there |
| `JsonRoundTrip.PrintThenParse` | libs/bridge_core/src/structure_adapters.cpp:246-287 | parsing the printed text of any well-formed tree gives back exactly the tree |
| `JsonRoundTrip.PrintedWithParses` | libs/bridge_core/src/structure_adapters.cpp:246-287 | the same whatever blank text stands for the newline |
| `JsonRoundTrip.ValueWellFormed` | libs/bridge_core/src/structure_adapters.cpp:181-243 | the reader returns only well-formed trees |
| `JsonRoundTrip.ReprintKeepsTree` | libs/bridge_core/src/structure_adapters.cpp:246-287 | a file rewritten through the reader and the printer stands for the same tree |
| `JsonText.ReadJson` | libs/bridge_core/src/structure_adapters.cpp:281-287 | the whole reader accepts the specified language and nothing else |
| `JsonText.JsonParser.ReadValue` | libs/bridge_core/src/structure_adapters.cpp:181-211 | reads one value, or fails where the specification does |
| `JsonText.JsonParser.ReadObject` | libs/bridge_core/src/structure_adapters.cpp:213-228 | reads members up to the closing brace |
| `JsonText.JsonParser.ReadArray` | libs/bridge_core/src/structure_adapters.cpp:230-243 | reads elements up to the closing bracket |
| `JsonText.JsonParser.ParseStringRaw` | libs/bridge_core/src/structure_adapters.cpp:152-179 | reads a string up to its closing quote, undoing escapes |
| `JsonText.JsonParser.Consume` | libs/bridge_core/src/structure_adapters.cpp:137-144 | skips blanks and takes the character if it is there |
| `JsonPaths.LookupAfterUpsert` | libs/bridge_core/src/structure_adapters.cpp:289-322 | for every path: below the updated path the new value, above it the updated container, elsewhere what was there, also when non-objects are in the way or keys are repeated |
| `JsonPaths.EditAnswers` | libs/bridge_core/src/structure_adapters.cpp:592-665 | a JSON edit is refused if and only if the content or the value is no JSON, a value to replace is not there, a key to set has no name, a value to append to is no list, or nothing would change |
| `JsonPaths.MembersKeepOrder` | libs/bridge_core/src/structure_adapters.cpp:295-309 | a key that is there keeps its place among the members, and a new one comes last |
| `JsonPaths.UpsertTwice` | libs/bridge_core/src/structure_adapters.cpp:289-309 | setting a path twice is setting it once |
| `JsonPaths.UpsertSame` | libs/bridge_core/src/structure_adapters.cpp:289-309 | setting a path to what is there changes nothing |
| `JsonPaths.EditedTextLookups` | libs/bridge_core/src/structure_adapters.cpp:593-664 | the three JSON edits on file texts: the staged text parses, its path finds the new value or the list with the new item, and every path beside it finds what it found before |
| `EditCommits.JsonEditCommitted` | libs/bridge_core/src/structure_adapters.cpp:48-63 | a JSON edit that is the last staged change of a path, committed: the file decodes to a text in which the edited path finds the new value and every path beside it what the edit started from, whatever line ends and mark the file has by then |
| `EditCommits.JsonEditFollowed` | libs/bridge_core/src/structure_adapters.cpp:592-660 | the same from the edit call on: made on what the session has of the path, added behind up to 9998 other changes, and committed after any calls that leave the path alone; what the session has then starts with no byte order mark |
| `EditCommits.MarkedRefused` | libs/bridge_core/src/structure_adapters.cpp:592-660 | a content that starts with a byte order mark, as a session has that of a marked file, is refused by every JSON edit |
| `StagedEdits.StagedIsCommitted` | libs/bridge_core/src/structure_adapters.cpp:48-63 | a whole-file edit added behind up to 9998 other changes, then any calls that leave the path alone, then a commit that goes through: the file is the staged text in the layout it had when the edit was staged |
| `StagedEdits.MaterializedIsPlanned` | libs/bridge_core/src/session_service.cpp:735-746 | what an edit sees of a path is the planned content, or the disk's if nothing of it is staged |
| `MarkdownCommits.MarkdownUpsertFollowed` | libs/bridge_core/src/structure_adapters.cpp:568-591 | a Markdown upsert whose text has carriage returns in line ends only, from the edit call to the file: unless the file gets a byte order mark it did not have, it decodes to a text in which the heading is found and has the new body, and the rest is what it was, line ends aside |
| `MarkdownCommits.SameSections` | libs/bridge_core/src/structure_adapters.cpp:85-111 | two texts that differ in their line ends alone have the same sections with the same bodies |
| `EditCommits.WrittenJsonReads` | libs/bridge_core/src/structure_adapters.cpp:246-287 | a printed tree written with any line ends and mark is read back as the tree |
| `JsonPaths.SplitKeyPath` | libs/bridge_core/src/structure_adapters.cpp:14-27 | splits a key path at its dots, dropping empty parts |
| `JsonPaths.SplitOfJoin` | libs/bridge_core/src/structure_adapters.cpp:14-27 | joining parts without dots and splitting gives the parts back |
| `JsonPaths.SplitAtDot` | libs/bridge_core/src/structure_adapters.cpp:14-27 | the parts of two texts with a dot between them are the parts of the one and then of the other, and a text without dots is one part, or none if it is empty |
| `JsonPaths.ObjectGet` | libs/bridge_core/src/structure_adapters.cpp:289-293 | the first member with a key |
| `JsonPaths.FindByPath` | libs/bridge_core/src/structure_adapters.cpp:311-322 | follows a path through objects |
| `YamlRoundTrip.YamlReadsBack` | libs/bridge_core/src/structure_adapters.cpp:324-450 | a printed tree is read back as itself if and only if it is a readable container: clean keys and scalars, and lists of scalars only |
| `YamlRoundTrip.ListInListLost` | libs/bridge_core/src/structure_adapters.cpp:351-372 | a list in a list is not read back |
| `YamlLayouts.LayoutReads` | libs/bridge_core/src/structure_adapters.cpp:351-416 | a text is read as the tree its lines lay out, whatever blank lines, deeper indentation and blanks around keys and values it has, list items that are keys included; and what stands behind it less indented is dropped |
| `YamlText.ReadYaml` | libs/bridge_core/src/structure_adapters.cpp:409-416 | the whole reader gives the specified tree for every text |
| `YamlText.YamlLineCursor.ReadBlock` | libs/bridge_core/src/structure_adapters.cpp:394-407 | reads the block that starts at the next line |
| `YamlText.YamlLineCursor.ReadMap` | libs/bridge_core/src/structure_adapters.cpp:374-392 | reads entries while they belong to the map |
| `YamlText.YamlLineCursor.ReadArray` | libs/bridge_core/src/structure_adapters.cpp:351-372 | reads items while they belong to the list |
| `Text.TrimCopy` | libs/bridge_core/src/structure_adapters.cpp:29-35 | two cursors cut the blanks off both ends |
| `Markdown.UpsertIsIdempotent` | libs/bridge_core/src/structure_adapters.cpp:568-591 | upserting twice is upserting once, if and only if no line of the body ends the section and the heading is found with a newline behind it, or can be found once appended, or stands at the very end with an empty body |
| `Markdown.HeadingGlued` | libs/bridge_core/src/structure_adapters.cpp:568-591 | a heading that is the unterminated last line swallows its new body, and the next upsert does not find it as it was |
| `Markdown.ReplaceThenFind` | libs/bridge_core/src/structure_adapters.cpp:531-547 | everything before the body and from the section's end stays; the heading is found at the same place, its body the new one up to the first line that ends the section |
| `Markdown.InsertThenFind` | libs/bridge_core/src/structure_adapters.cpp:549-566 | inserted text comes in front of the old body and the section is found again |
| `Sections.ClosesExactly` | libs/bridge_core/src/structure_adapters.cpp:97-106 | a line ends a section if and only if it is a heading of its rank or a higher one: blanks, one to that many hashes, a space, and a title |
| `Sections.OneRank` | libs/bridge_core/src/structure_adapters.cpp:99-101 | a line has one rank at most, so a deeper heading stays inside |
| `Sections.NoHeading` | libs/bridge_core/src/structure_adapters.cpp:99-101 | hashes alone, or with something other than a space behind them, are no heading |
| `Sections.EditsOfSection` | libs/bridge_core/src/structure_adapters.cpp:531-591 | of a text whose lines are known: a replacement and an upsert put the new body in place of the old one and keep the rest, the line that ends the section included; an insertion puts it in front |
| `Sections.NoSection` | libs/bridge_core/src/structure_adapters.cpp:584-590 | a heading that no line says is not found, and is appended with its body by an upsert |
| `Sections.NoSectionOpen` | libs/bridge_core/src/structure_adapters.cpp:584-590 | the same behind a last line without its newline, which it then gets |
| `Sections.NormalizedBody` | libs/bridge_core/src/structure_adapters.cpp:113-116 | a body gets a newline at its end unless it has one or is empty |
| `Markdown.LinesTile` | libs/bridge_core/src/structure_adapters.cpp:71-83 | the line spans tile the text, each holding its line and its newline |
| `Markdown.MarkdownLines` | libs/bridge_core/src/structure_adapters.cpp:71-83 | the loop gives the specified lines |
| `Markdown.FindSectionRange` | libs/bridge_core/src/structure_adapters.cpp:85-111 | the nested loops find the first matching heading and the first later line that ends its section |
| `Markdown.EndsSection` | libs/bridge_core/src/structure_adapters.cpp:98-106 | a heading of at most the section's level |

## Left out

- Sockets, pipes, framing, locks, argument parsing, the request dispatch and all `format_*` functions: plumbing around the engine.
- Failing reads, writes, renames and directory creations: every file operation is one step that succeeds; symbolic links and non-regular files do not occur.
- The workspace search, the HTML rewriter, snapshots, summaries, highlights, and the wording of errors, conflict reasons and exceptions.
- Path normalization and the policy rules themselves: `resolve_under_workspace` is a parameter.
- FNV-1a, ISO timestamps and id texts: an arbitrary hash function, an arbitrary display of clock readings, and clock readings as ids.
- Two clocks read within one call: the code may show one write time differently when it is read at a second boundary; here a write time is shown by a function of it.
- The text form of preview metadata, backup metadata and session metadata: they are records; a damaged metadata file is a flag, so paths that hold a newline are not captured there.
- Change ids that hold a slash, which would name a directory that does not exist.
- Streaming a preview's diff in chunks, with its time limit and cancellation.
- The summaries a session preview adds to each file: risk, change counts and highlights.
- Backup damage by others: only previews can be damaged in the modelled runs.
- The history lines of single operations: `History` rotates and keeps arbitrary records, and is not called from `PatchStore`.
- JSON and YAML trees edited in place, by reference: `JsonPaths` computes the new tree as a value; updates in place and aliasing are not captured. YAML edits by path, which repeat the JSON ones on maps, are not modelled.
- std::getline, std::string::find and rfind, isspace, sanitize_rel_path and similar short scans are functions, not loops.
- Nodes of depth beyond the machine stack: the readers recurse without a bound, as the code does.
- ChangeRoundTrip.StoreThenLoad: asks that line numbers and the occurrence fit in 64 bits, which their type in the program guarantees.
- Commit.CommitUndone: asks that the commit wrote no more files than backups are kept, since older backups are deleted.
- Twice.SingleChangeTwice: a written file with several changes, none of the whole file and not all insertions, or with a byte order mark, is described by its second replay (`RetryKeeps`), not by a condition on the changes.
- YAML edits, and Markdown edits other than the upsert, followed to the committed file.
- StagedEdits.StagedIsCommitted: starts from a session without changes and at most 9999 additions, the range in which the change added last is also read last.
- StoreRuns.AppliedAsPreviewed: with a damaged preview only the hash of the content is certified, because that is all the program compares.

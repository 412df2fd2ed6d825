# A verified model of the neurun control plane's core

neurun builds apps from commits, runs them as executions and lets them drive
browsers. This project models the four places where its control plane does the
most at once, in Dafny, and proves what each is for.

- **Archives.** A tarball becomes a ZIP (`Repack`), a build tree becomes a layer
  (`Packing`), and a ZIP becomes a directory (`ArchiveNames`, `Archive`,
  `Sorting`, `Staging`, `Extraction`) over one bounded copy (`Copying`). The file
  system is a map from component sequences to nodes, and every operation on it may
  fail. `RoundTrip` joins packing and extraction, `Fetching` repacking and extraction.
- **Claim, run, finish.** Executions (`WorkerProtocol`) and deployments
  (`DeployProtocol`) are transition systems over `Runs`: any number of processes, log
  flushers between any two steps, crashes, recovery racing live processes, and
  statements that land after whoever sent them has given up or died. The SQL guards and
  locks are those of the repositories. `Executions` and `Deployments` say field by field
  what the rows record and where it comes from. `Orphans` and `Stranding` are about what is left
  with nobody to finish it, `Loading` about rows that cannot be read, `LateSaves` about a
  snapshot that outlives its stream. `Artifacts` is the traffic with the blob store,
  `Builds` what both sides of it record, `Logs` what is kept of printed output and
  `Encoding` whether the database takes it.
- **Browsers.** `BrowserDriver` is Open, Driving and Close over calls that fail or
  take effect behind an error; `BrowserRuns` is every sequence of them, with calls that
  come between Touch's read and its write; `Cookies` is the conversion of jars.
- **Identifiers.** `Ids` is the 128-bit base-32 encoding and the validation of ids.

`Paths`, `Text` and `DeviceNames` model the library functions the above rest on.
Strings are sequences of characters and a length in bytes is their number.

Code that computes is modelled by functions; loops, records and stores that are
updated in place are modelled by methods and classes. Protocols whose point is how
steps of several processes interleave are modelled as steps of a state machine, one
step per point at which another process can act.

## What turned out not to hold

Each of these is stated with the exact condition under which the code does what its
comments promise, and with an input.

- A build that is saved while its row is not is a deployment that cannot be loaded, and
  every build is, for a while (`UnloadableFromPublish`). RecoverBuilding loads every
  unfinished row in one transaction, so once nobody is left to finish such a row every
  recovery fails and changes nothing, and with it the start of the service
  (cmd/neurun/main.go:385-388). That comes about when the builder dies or its last save
  simply fails after the build is saved, when a last save it left behind never commits,
  and when the insert of a build it gave up on still does (`StrandsExactly`).
  `RecoverBuilding` has the condition of recovery, `StrandedForever` the permanence and
  `StrandedIsReachable` two such runs, one without any crash.
- A failed deployment is documented to have produced no build. One whose insert took
  effect behind an error, or after a recovery had failed the row, has one and can never
  be loaded again (`SpoilsExactly`, `SpoiledForever`, `SpoiledIsReachable`).
- A result that is too large is documented to fail the run. The row's own bound on it is
  not the configured limit: with a larger limit a result between the two is refused by the
  record after the run (`OversizeOrphans`). So is a run whose captured output leaves no
  room for the truncation marker, because the default cap equals the bound of a row's logs
  (`DefaultCapOverflows`, `OverflowOrphans`). `FinishRefusedExactly` has both conditions.
  Either way the worker lets go and the row stays running until the next recovery
  (`RefusedUntilRecovery`).
- A row is documented to reach a terminal state. Both bounds on logs cut by bytes, and a
  text column takes only UTF-8 without NUL: output with a character across the bound is
  refused by the database, on the last write as on every other (`HeadTakenExactly`,
  `TailTakenExactly`, `SplitIsRefused`). A Finalize that fails so leaves the execution
  running (`OrphansExactly`), and a last save of a deployment that fails so once the build
  is saved strands it (`StrandsExactly`).
- strip is documented to reject a path that escapes the wrapper directory. It takes
  whatever comes first for the wrapper: absolute names, names that climb once and names
  that leave the wrapper for a directory beside it are accepted, and so are names that
  leave it twice and name something then, such as "w/../../a". `EscapeRefusedExactly` says
  which ones it does refuse, `EscapesAreAccepted` gives three it does not.
- Close is documented to leave no record behind its browser; it does when the record
  cannot be read again or deleted after the browser stopped. A lease written back after a
  Close brings the record back, and one whose browser dies by itself stays
  (`AgreementLostExactly`, `LateRenewRevives`, `AgreementLossIsReachable`).
- Close of a log stream does not wait for a save that failed at its caller and still
  commits: a building snapshot can land after it (`WrittenAfterCloseExactly`,
  `LateSnapshotIsReachable`). The lock every Save takes keeps it from landing on a later
  stage (`LateSnapshotWaits`, `NeverGoesBack`).
- Recover of the deployer is documented to fail deployments left building; it also fails
  queued ones (`RecoverChangesExactly`, `QueuedIsFailed`).

## Model

| member | source | states |
|---|---|---|
| ArchiveNames.CleanGuardNeverFires | internal/files/zip.go:303-317 | once the component checks pass, cleaning changes nothing and the guard after it can never refuse |
| ArchiveNames.AcceptedIsPortable | internal/files/zip.go:285-318 | an accepted name consists of portable components: not empty, not "." or "..", no trailing dot or space, no device, no control or reserved character |
| ArchiveNames.PortableIsAccepted | internal/files/zip.go:285-318 | every name of portable components is accepted, with or without a closing slash, and comes back without it |
| ArchiveNames.SafeArchiveNameIff | internal/files/zip.go:285-318 | acceptance in both directions for every raw name |
| ArchiveNames.RefusedExactly | internal/files/zip.go:285-318 | the error cases: a name is refused exactly when it is not UTF-8, empty, absolute, has a backslash, a colon or a control character, or has a component that is empty, a dot name, ends in a dot or a space, or is a device name |
| ArchiveNames.AcceptedNameStaysWithin | internal/files/zip.go:112-115 | an accepted name joined to any staging directory lies within it, so the pathWithin guard can never fire |
| ArchiveNames.PathWithinExactly | internal/files/zip.go:388-396 | the guard itself passes exactly what lies at or below the root |
| DeviceNames.LongNameIsNoDevice | internal/files/zip.go:408-420 | no name longer than four characters without a dot is a device name |
| DeviceNames.DevicesAre | internal/files/zip.go:408-420 | an upper-case name without a dot is a device exactly when it is CON, PRN, AUX or NUL, or COM or LPT with a digit from 1 to 9 |
| DeviceNames.DeviceIgnores | internal/files/zip.go:408-420 | neither the case of the letters nor anything from the first dot on makes a difference to that |
| Paths.DirDropsLast | internal/files/zip.go:273-273 | the parent of an ordinary name is the name without its last component |
| Paths.AncestorSortsFirst | internal/files/zip.go:103-108 | a directory's name sorts before the name of everything inside it |
| Archive.BudgetGuardExact | internal/files/zip.go:256-261 | the subtraction-form guard refuses exactly when the true sum passes the limit, and no unsigned operation wraps when it does not |
| Archive.HasFileAncestor | internal/files/zip.go:272-280 | the path.Dir walk ends at "." and finds a file exactly when some proper prefix of the name is one |
| Archive.NoneShadowed | internal/files/zip.go:271-281 | the conflict check accepts exactly when no regular file stands above another entry |
| Archive.Admit | internal/files/zip.go:242-268 | an entry is admitted exactly when its folded name is new and the true total stays within the budget; the maps and counters stay exact |
| Archive.InspectArchive | internal/files/zip.go:209-283 | accepts exactly the acceptable archives, reports their entries, total and counts, and names the reason for a refusal; an accepted archive has no link and nothing else that is neither a file nor a directory, and every entry is what its record stands for: the portable name without its closing slash, a directory or a file, its permissions, size and contents |
| Archive.ParsedIsNamed | internal/files/zip.go:225-240 | a record that passes the checks on its own has ordinary components and, if a directory, no data |
| Archive.ParseExactly | internal/files/zip.go:225-240 | which records pass and as what, by kind, name and size: no links, files only of regular kind, directories by kind or closing slash and without data |
| Archive.DirectoriesCounted | internal/files/zip.go:262-268 | the number of directories reported is that of the entries that are directories |
| Archive.LimitsExactly | internal/files/zip.go:196-207 | the limits enforced are those a caller means: none negative, and zero for 1000 entries or 256 MiB |
| Archive.AcceptancePermutes | internal/files/zip.go:209-283 | acceptance does not depend on the order of the central directory |
| Archive.EntriesPermute | internal/files/zip.go:224-269 | permuted directories have the same entries |
| Sorting.SortSorted | internal/files/zip.go:103-108 | the stable sort orders every collection whose elements the order tells apart |
| Sorting.SortedUnique | internal/files/zip.go:103-108 | a collection has only one sorted arrangement |
| Staging.PlaceStep | internal/files/zip.go:111-139 | a turn of the extraction loop meets no existing file and no file where it needs a directory, and adds exactly the entry and its missing ancestors |
| Staging.ModesExactly | internal/files/zip.go:398-406 | bit by bit: the owner can read and write a file and do everything with a directory, nobody else can write, and every other bit is the record's |
| Staging.EntryNodes | internal/files/zip.go:117-160 | the node of an entry is a directory, or a file with its contents, with those bits |
| Staging.PopulateHolds | internal/files/zip.go:111-161 | the whole loop runs through on an empty tree and leaves exactly the entries and their ancestors |
| Staging.HoldsUnique | internal/files/zip.go:111-161 | only one tree holds given entries |
| Staging.HoldsReads | internal/files/zip.go:111-139 | the tree is the entries plus their ancestors and nothing else; every explicit entry has its own mode and contents |
| Staging.SortedIsPlantable | internal/files/zip.go:102-108 | sorting makes the entries of an accepted archive placeable in order |
| Staging.ExtractionSucceeds | internal/files/zip.go:102-161 | for every accepted archive the sorted loop succeeds and leaves the complete tree |
| Staging.ExtractionPermutes | internal/files/zip.go:102-108 | the order of the central directory does not show in what is placed |
| Copying.Reader.Read | internal/files/copy.go:94-94 | a read hands over a prefix of what is left and reports the end only at the end |
| Copying.Sink.Write | internal/files/copy.go:97-104 | a write appends the prefix it counts |
| Copying.Probe | internal/files/copy.go:72-86 | the read at the boundary tells a source that ends at the limit from one that goes on |
| Copying.Pump | internal/files/copy.go:90-117 | a turn below the limit moves bytes from the source to the destination without loss |
| Copying.CopyAndHash | internal/files/copy.go:33-119 | terminates for every reader; never writes past the limit; success is the whole source with its size and digest; the limit error means the source is longer; every other error has its cause: a context done at a check stops the copy before the next read, a hundred reads in a row that bring nothing end it and nothing less does, a failed read or write is the last one made; from a source that neither fails nor stalls so long, with nothing else failing, the length alone decides |
| Extraction.Workspace.MakeDirectories | internal/files/zip.go:117-124 | makes the missing directories or fails, and touches nothing but the staging directory |
| Extraction.Workspace.WriteFile | internal/files/zip.go:126-160 | success writes the whole member under its declared size; what lands in the file, whole or not, is within the budget |
| Extraction.Workspace.ExtractEntry | internal/files/zip.go:111-161 | success places the entry in the staging tree and counts its bytes |
| Extraction.Workspace.FillStaging | internal/files/zip.go:110-161 | a full run leaves exactly the tree of the entries, the budget handed to each copy is never negative, and the count is the bytes on disk |
| Extraction.Workspace.RequireVacant | internal/files/zip.go:336-355 | passes only a missing or empty real directory |
| Extraction.Workspace.CommitStaging | internal/files/zip.go:357-386 | the destination becomes the staged tree, or stays as it was, or is vacant where it was vacant |
| Extraction.Workspace.Discard | internal/files/zip.go:96-100 | touches nothing but the staging directory, and removes it unless that very step fails |
| Extraction.Workspace.FillAndCommit | internal/files/zip.go:102-171 | the re-check of the total cannot fail, and the commit is all or nothing |
| Extraction.Workspace.Expand | internal/files/zip.go:91-171 | whichever step fails, the destination never holds a partial tree |
| Extraction.Workspace.ExtractZIP | internal/files/zip.go:53-172 | all or nothing over every failing step: success is the complete tree of an acceptable archive, without links and of what its records stand for, with true counts; failure leaves the destination as it was or vacant, staging is left only when removing it, the last step, failed, and with nothing failing every sound archive succeeds |
| Packing.CollectNames | internal/builder/python.go:95-115 | the walk refuses exactly a tree with something not regular in it or a walk that fails, and otherwise names every file once |
| Packing.PackFiles | internal/builder/python.go:122-151 | one record per name in order, or nothing |
| Packing.ZipDirectory | internal/builder/python.go:94-153 | the archive has one record per file in name order and nothing else |
| Packing.WalkOrderIrrelevant | internal/builder/python.go:95-116 | two archives of the same files are equal whatever order the walks took |
| Packing.ParsePacked | internal/builder/python.go:129-135 | the record zipDirectory writes passes the extractor's checks exactly when its path is portable, and means the same file |
| Packing.ParseRecord | internal/files/zip.go:224-240 | the record of any regular file passes exactly when its path is portable, and means that file |
| RoundTrip.PackedIsAcceptable | internal/files/zip.go:209-283 | the archive of a directory is accepted exactly when its files number and add up within the limits and their names are portable and fold-distinct |
| RoundTrip.PackAndExtract | internal/builder/python.go:94-153 | extracting what was packed gives back exactly the same files with mode 0644, empty directories dropped, and never fails on a portable tree within the limits when nothing else does |
| RoundTrip.ListedTotals | internal/builder/python.go:122-147 | the archive counts and weighs what the files do |
| Repack.ResolveCanonical | internal/github/github.go:261-261 | a cleaned name has ".." only in front, and none below a root |
| Repack.StripExact | internal/github/github.go:260-270 | strip drops the first component and refuses exactly when nothing is left or what is left still climbs |
| Repack.CleanedIsWrapped | internal/github/github.go:260-270 | an accepted name cleans to its wrapper, a slash and what strip leaves |
| Repack.StrippedIsSafe | internal/github/github.go:260-270 | an accepted name is not empty, relative, a fixed point of cleaning and free of ".." |
| Repack.StripInjective | internal/github/github.go:260-270 | under one wrapper different cleaned names stay different |
| Repack.WrapThenStrip | internal/github/github.go:258-270 | every safe name comes back from under any wrapper directory |
| Repack.InsideIsKept | internal/github/github.go:258-270 | a name that stays inside its wrapper keeps all that follows the wrapper and is refused only when nothing does |
| Repack.EscapeRefusedExactly | internal/github/github.go:258-270 | of the names that escape their wrapper, which ones strip refuses, for every raw name |
| Repack.ClimbingOnceIsStripped | internal/github/github.go:258-270 | of the names that climb and then name a path, exactly those that climb once are accepted |
| Repack.AbsoluteIsStripped | internal/github/github.go:258-270 | an absolute name escapes and is accepted without its slash |
| Repack.SidewaysIsStripped | internal/github/github.go:258-270 | a name that leaves its wrapper for a directory beside it escapes and is accepted without that directory |
| Repack.EscapesAreAccepted | internal/github/github.go:258-270 | three names that escape and are accepted |
| Repack.RepackWith | internal/github/github.go:199-256 | success is the regular members that strip accepts, in order, within the limits and read to their end; TooBig means they are over a limit; with no write failing the first member that is wrong decides, and there is success exactly without one |
| Repack.Repackage | internal/github/github.go:199-256 | the same with the real strip: a ZIP of the kept members, within the limits, exactly when the tarball reads through |
| Repack.OutputExactly | internal/github/github.go:217-251 | the ZIP has the kept members and nothing else |
| Repack.WrittenExactly | internal/github/github.go:221-256 | a file is in the ZIP exactly when a regular member has its contents and strip takes its name to the file's |
| Repack.OutputInOrder | internal/github/github.go:214-256 | files come in the order of their members, once each |
| Repack.OthersDoNotShow | internal/github/github.go:225-227 | members that are not regular do not show in the ZIP |
| Repack.RepackageTwice | internal/github/github.go:199-256 | with no write failing, a tarball with and without the members that are not regular has the same ZIP, the same total and the same verdict |
| Repack.NoDuplicates | internal/github/github.go:197-251 | from distinct members under one wrapper no two files of the ZIP share a name |
| Fetching.OutputIsClean | internal/github/github.go:199-256 | what repack writes has clean relative names |
| Fetching.FetchedIsAcceptable | internal/github/github.go:199-256 | the ZIP of a tarball is accepted exactly when its files number and add up within the limits, their names are portable and fold apart, and none lies below another |
| Fetching.FetchAndExtract | internal/builder/deployer.go:192-207 | fetching and extracting gives exactly the kept members under their stripped names with mode 0644, and never fails on a sound tarball when nothing else does |
| WorkerProtocol.NewFailureIsValid | internal/worker/worker.go:335-344 | whatever an error says, the failure made of it is one a record accepts |
| WorkerProtocol.NewFailureSays | internal/worker/worker.go:335-344 | it has the code it is given and says what the error says, as far as 4096 characters go, or that the operation failed |
| WorkerProtocol.StepKeeps | internal/worker/worker.go:142-207 | every step of every process keeps the invariant of the table, the jobs and the statements under way |
| WorkerProtocol.ClaimKeeps | internal/repository/database/execution.go:210-253 | a claim takes a queued row that no worker has, and keeps the invariant |
| WorkerProtocol.FinalizeApplies | internal/repository/database/execution.go:187-206 | Finalize moves a running row to a valid outcome, once, and leaves any other row alone |
| WorkerProtocol.LogsApply | internal/repository/database/execution.go:166-183 | SaveLogs changes the logs of a running row, within the bound, and nothing else |
| WorkerProtocol.RecoverKeeps | internal/repository/database/execution.go:257-300 | recovery while workers are live keeps everything they rely on |
| WorkerProtocol.OncePerExecution | internal/worker/worker.go:142-213 | over all runs an execution is claimed at most once, run at most once and only with its pinned build, and ends at most once |
| WorkerProtocol.OneWorkerPerExecution | internal/worker/worker.go:175-184 | over all runs no two workers have the same execution |
| WorkerProtocol.TerminalIsForever | internal/domain/execution/execution.go:251-271 | over all runs a terminal row never changes, and build, input and lineage never change at all |
| WorkerProtocol.NoSaveAfterFinalize | internal/worker/worker.go:354-419 | once a worker has called Finalize nobody calls SaveLogs for that execution |
| WorkerProtocol.SavesAreGrowingTrims | internal/worker/worker.go:379-414 | the values handed to SaveLogs are trims of growing prefixes of what the handler wrote |
| WorkerProtocol.TerminalRowIsTrue | internal/worker/worker.go:183-205 | a terminal row is the handler's outcome with its own logs, or recovery's failure over logs that had been saved, or none |
| Executions.TerminalForm | internal/domain/execution/execution.go:159-183 | in every run a terminal row is succeeded with the output and the logs its handler came to and no failure, or failed with the failure and the logs it came to and no output, or an interruption over logs that had been saved |
| Executions.RowsAreBounded | internal/domain/execution/execution.go:185-234 | in every run rows keep to the bounds on output, logs and failures, with an output exactly on success and a failure exactly on failure |
| Executions.ConcludesExactly | internal/repository/database/execution.go:187-206 | a step ends an execution exactly when a Finalize for it is carried out, then or late, or a recovery finds it running |
| Executions.FinishRecords | internal/worker/worker.go:183-203 | a Finalize that is carried out on a running row records what the worker came to, field by field; one that is not changes nothing |
| Executions.LandRecords | internal/repository/database/execution.go:163-206 | so does one that lands late, and late logs change nothing but the logs |
| Executions.PersistShows | internal/repository/database/execution.go:163-183 | a flush that is carried out puts the trim of what was written on the running row and changes nothing else |
| Executions.RecoverRecords | internal/repository/database/execution.go:255-300 | a recovery fails exactly the running rows, over the logs they have |
| Executions.HistoryExactly | internal/worker/worker.go:379-414 | what is known of a run, its outcome, its output and what its flushes took, is what its own worker did and nothing else |
| Executions.CreatedAsAsked | internal/domain/execution/execution.go:96-138 | a new execution has the build and the input asked for, or those of the finished one it reruns, and is queued and blank |
| Executions.ClaimedForm | internal/domain/execution/execution.go:140-157 | a claim leaves a clean running row, which is what its worker gets |
| Executions.RerunsRepeat | internal/domain/execution/execution.go:116-138 | in every run a rerun has the build and the input of the finished execution it names |
| Orphans.OrphansExactly | internal/worker/worker.go:175-207 | a step leaves a running execution to nobody in exactly five ways: a claim not heard of, a result the record refuses, a Finalize that is lost, a crash before it, a Finalize left behind that the database drops |
| Orphans.OrphanedUntilRecovery | internal/worker/worker.go:142-153 | in every run such an execution stays running, in nobody's hands, until the next recovery and is failed as interrupted from then on |
| Orphans.RefusedUntilRecovery | internal/worker/worker.go:184-192 | the same for an execution whose result its record refuses |
| Orphans.RollbackOrphans | internal/repository/database/execution.go:187-206 | a run in which a worker dies while it finalizes and the transaction is rolled back |
| Orphans.RefusalOrphans | internal/worker/python.go:93-99 | every clean exit that the record refuses has a run that ends with its execution orphaned |
| Orphans.OverflowOrphans | internal/worker/python.go:153-180 | such a run for every output that leaves no room for the marker |
| Orphans.OversizeOrphans | internal/domain/execution/execution.go:88-94 | such a run for every result over what a row carries that the configured limit lets through, with nothing printed |
| DeployProtocol.TailOfTail | internal/domain/deployment/deployment.go:191-200 | whatever pieces output comes in, the record keeps the tail of all of it |
| DeployProtocol.TailIsEnd | internal/domain/deployment/deployment.go:191-200 | what is kept of a log is its last characters, as many as fit |
| DeployProtocol.SaveAdvances | internal/repository/database/deployment.go:65-115 | a save of what its builder may save takes the row no further back, whether it is carried out, fails or may still land |
| DeployProtocol.SettleAdvances | internal/repository/database/repository.go:52-61 | a save that lands after its caller has given up or died, or never does, takes the row no further back |
| DeployProtocol.InsertAdvances | internal/repository/database/build.go:56-80 | a build inserted after its caller has given up or died changes nothing else |
| DeployProtocol.SettleTracks | internal/repository/database/deployment.go:70-74 | what settles under a live builder's feet is what it allows for |
| DeployProtocol.NobodyHasQueued | internal/repository/database/deployment.go:235-277 | a queued deployment has no builder |
| DeployProtocol.HalfStep | internal/builder/deployer.go:241-250 | a layer that is put is recorded as it landed, in its place, and charged to the budget |
| DeployProtocol.TurnKeeps | internal/builder/deployer.go:174-263 | every turn of a builder keeps what it and the table say of its deployment |
| DeployProtocol.RemainsKeeps | internal/builder/deployer.go:136-169 | a crash at any point leaves a call that can do no more than its builder could |
| DeployProtocol.BlobAdded | internal/repository/file/local.go:109-117 | a blob is created and never replaced, so what was stored stays stored |
| DeployProtocol.RecoverKeeps | internal/repository/database/deployment.go:331-370 | recovery while builders are live keeps everything they rely on |
| DeployProtocol.StepKeeps | internal/builder/deployer.go:136-263 | every step of every process keeps the invariant of rows, builds, blobs, jobs and statements |
| DeployProtocol.ReadyIsComplete | internal/builder/deployer.go:241-263 | at every point of every run a ready row has a saved build of the layers the toolchain returned, all and in order, stored with recorded size and digest, within the limit, and the tail of all that was printed |
| Deployments.FailureIsReported | internal/builder/deployer.go:136-169 | in every run the failure of a failed row is the one its builder reported, or the interruption of a recovery that met it unfinished and went through |
| Deployments.ReportExactly | internal/builder/deployer.go:174-263 | the steps in which a builder comes to a failure, and which: the toolchain's own, no layers, a stage that is not saved, a layer or a build that is not stored |
| Deployments.HistoryExactly | internal/builder/deployer.go:404-437 | what is known of a build, its output, its snapshots and its layers, is what its own builder did and nothing else |
| Deployments.CreatedForm | internal/domain/deployment/deployment.go:94-111 | a deployment is created queued and blank |
| Deployments.ClaimedForm | internal/repository/database/deployment.go:235-277 | a claim leaves a building row without failure or logs, which is what its builder gets |
| Deployments.FlushTakes | internal/builder/deployer.go:427-437 | a flush takes a building snapshot with the tail of all that was printed |
| Deployments.PersistForm | internal/builder/deployer.go:389-396 | a snapshot that is saved is the row of a deployment still building, and changes no other |
| Deployments.AdvanceForm | internal/builder/deployer.go:292-303 | the save of the next stage makes a building row a publishing one with the tail of all that was printed |
| Deployments.FinishForm | internal/builder/deployer.go:157-168 | the last save, if it takes effect, leaves the failed row with the reported failure, in place of an interruption too, or the ready row, unless a recovery came first; either over the tail of all that was printed |
| DeployProtocol.NeverGoesBack | internal/builder/deployer.go:136-169 | over all runs, late saves included, a deployment never goes back a stage, a finished status never changes and a ready deployment does not change at all |
| DeployProtocol.NothingStaleAfterClose | internal/builder/deployer.go:374-443 | after Close no snapshot is taken and no builder is inside a save of one; if none was left to land late, nobody writes a building row again |
| DeployProtocol.LateSnapshotWaits | internal/repository/database/deployment.go:70-74 | while a building snapshot may still land the row is building or failed, there is no build, and a builder is at its stream or waits to save the publishing stage or a failure |
| LateSaves.WrittenAfterCloseExactly | internal/builder/deployer.go:383-443 | after Close a step writes a building row exactly by settling a snapshot left to land late on a row still building |
| LateSaves.LateSnapshotIsReachable | internal/builder/deployer.go:383-443 | a run that does |
| DeployProtocol.LastSnapshotCovers | internal/builder/deployer.go:412-443 | after Close the last snapshot covers every write |
| DeployProtocol.OnceClaimed | internal/repository/database/deployment.go:235-277 | over all runs a deployment is claimed at most once and never has two builders |
| DeployProtocol.RecoverBuilding | internal/repository/database/deployment.go:331-370 | fails every unfinished deployment or changes nothing, and changes nothing exactly when an unfinished one has a build |
| Loading.RecoverChangesExactly | internal/repository/database/deployment.go:331-370 | a recovery changes exactly the unfinished deployments, and none while an unfinished one has a build |
| Loading.QueuedIsFailed | internal/builder/deployer.go:103-114 | a run in which a recovery fails a deployment nobody ever claimed |
| Stranding.CrashStrands | internal/builder/deployer.go:136-169 | a crash strands a deployment exactly when its build is saved, its row is unfinished and the last save was not sent |
| Stranding.StrandsExactly | internal/builder/deployer.go:136-169 | a step strands a deployment in exactly four ways: a crash or a failed last save that takes no effect once the build is saved, a last save left behind that never lands, a build left behind that does |
| Stranding.StrandedBlocks | internal/repository/database/deployment.go:354-358 | one stranded deployment makes recovery fail for all |
| Stranding.StrandedStays | internal/repository/database/deployment.go:331-370 | nothing any process does moves a stranded deployment |
| Stranding.StrandedForever | cmd/neurun/main.go:385-388 | from then on every recovery of every run fails and changes nothing |
| Stranding.UnreadableExactly | internal/domain/deployment/validate.go:67-93 | a deployment cannot be loaded exactly when its build is saved and its row is publishing or failed |
| Loading.UnloadableFromPublish | internal/repository/database/deployment.go:213-228 | a deployment becomes unloadable exactly when its build is inserted |
| Loading.SpoilsExactly | internal/builder/deployer.go:136-169 | which steps leave a failed deployment with a build: the insert taking effect on a failed row, or the save of a failure on a row whose build is inserted |
| Loading.SpoiledForever | internal/domain/deployment/validate.go:89-93 | such a deployment can never be loaded again |
| Loading.SpoiledIsReachable | internal/builder/deployer.go:258-263 | a run that leaves one: the insert reports an error and takes effect all the same |
| Stranding.StrandedIsReachable | internal/builder/deployer.go:136-169 | runs that strand a deployment, by a crash and without any |
| Artifacts.CopyWhole | internal/repository/file/local.go:93-107 | a copy is the whole source with its digest or nothing |
| Artifacts.CopyOver | internal/repository/file/local.go:93-97 | a copy holds what it counts of the source |
| Artifacts.BlobStore.Put | internal/repository/file/local.go:59-124 | publishes a complete blob under a new key or leaves the store alone |
| Artifacts.BlobStore.Materialize | internal/worker/worker.go:304-333 | succeeds only with the stored bytes, and only if they are what the build recorded |
| Artifacts.BlobStore.StoreLayers | internal/builder/deployer.go:241-250 | every layer is stored as recorded, the total keeps to the limit, and nothing stored before is lost |
| Artifacts.BlobStore.FetchLayers | internal/worker/worker.go:223-245 | all layers as stored, and refused exactly over the limit when nothing else fails |
| Artifacts.BlobStore.StoreThenFetch | internal/worker/worker.go:223-245 | a worker gets back the very layers the builder stored |
| Logs.LimitedBuffer.Write | internal/worker/python.go:153-170 | the buffer holds the head of everything written and the mirror all of it |
| Logs.LimitedBuffer.WriteAll | internal/worker/python.go:153-170 | the same for any cutting of the output into writes |
| Logs.LimitedBuffer.String | internal/worker/python.go:172-180 | what is shown is a function of all that was written |
| Logs.ShownExactly | internal/worker/python.go:172-180 | the marker is there exactly when something was cut off, without its newline when nothing visible was kept |
| Text.TrimSpaceExactly | internal/worker/python.go:172-180 | trimming takes white space off both ends, all of it, and nothing else |
| Logs.ConcludedExactly | internal/worker/python.go:80-99 | a clean exit with JSON within the limit returns it with the logs; without a result, with too large a one or with one that is not JSON it is the failure that says so, with the logs |
| Logs.FinishRefusedExactly | internal/domain/execution/execution.go:214-234 | a handler that exits cleanly, with or without a proper result, has its run refused by the record exactly when the kept output leaves no room for the marker, or its result is more than a row carries and the configured limit lets it through |
| Logs.OutcomeRefusedExactly | internal/domain/execution/execution.go:185-234 | the same for every outcome, failures included |
| Logs.DefaultCapOverflows | internal/worker/worker.go:121-123 | with the default cap any longer output without white space is refused |
| Encoding.HeadExactly | internal/worker/python.go:156-163 | the head of UTF-8 text is UTF-8 exactly when the cut falls between characters |
| Encoding.TailExactly | internal/domain/deployment/deployment.go:195-199 | so is its tail |
| Encoding.ShownLikeHead | internal/worker/python.go:172-180 | the database takes what is shown of any output exactly when it takes the head of it: neither trimming nor the marker matters |
| Encoding.HeadTakenExactly | internal/worker/python.go:153-180 | of UTF-8 output the row of an execution takes what is shown exactly when the cap does not fall inside a character and no NUL comes before it |
| Encoding.TailTakenExactly | internal/domain/deployment/deployment.go:191-200 | of UTF-8 output the row of a deployment takes the tail exactly when the cut does not fall inside a character and no NUL comes after it |
| Encoding.SplitIsRefused | internal/domain/deployment/deployment.go:191-200 | a two-byte character across either bound is enough |
| Logs.HandlerStream.Write | internal/worker/worker.go:379-385 | does to the stream what the protocol's Write does to its worker's |
| Logs.HandlerStream.Flush | internal/worker/worker.go:404-414 | hands SaveLogs a value exactly when the protocol takes one, and the same value |
| Logs.ToolchainStream.Write | internal/builder/deployer.go:404-410 | does to record and stream what the protocol's Write does to its builder's |
| Logs.ToolchainStream.Flush | internal/builder/deployer.go:427-437 | hands Save a snapshot exactly when the protocol takes one, and the same snapshot |
| Cookies.ServiceCookies | internal/service/browserdriver.go:290-305 | the same cookies one by one, expiries included |
| Cookies.DomainCookies | internal/service/browserdriver.go:309-324 | the same cookies one by one, expiries included |
| Cookies.SameIsOneToOne | internal/service/browserdriver.go:290-324 | jars and messages correspond one to one |
| Cookies.ThereAndBack | internal/service/browserdriver.go:290-324 | converting a jar and back gives the jar |
| Cookies.BackAndThere | internal/service/browserdriver.go:290-324 | converting messages and back gives the messages |
| BrowserDriver.Driver.Open | internal/service/browserdriver.go:70-141 | for every way its calls end: a live, seeded and registered session, or no record and the browser abandoned; a new session has no cookies unless storage is asked for and then exactly its profile's jar, wears its profile's browser if it has one and the requested one otherwise, and a request that cannot be met changes nothing |
| BrowserDriver.Driver.Start | internal/service/browserdriver.go:109-140 | a browser that is up is seeded and registered, or abandoned |
| BrowserDriver.Driver.Driving | internal/service/browserdriver.go:150-163 | authorizes exactly the organization's own registered sessions and, with nothing in between, changes nothing but a lease |
| BrowserDriver.Driver.Renew | internal/service/browsersession.go:145-147 | the write of Touch puts back the record it is given, present or not |
| BrowserDriver.Driver.SaveCookies | internal/service/browserdriver.go:265-287 | the profile gets the exact whole jar, or stays as it was when the capture is empty, refused or fails |
| BrowserDriver.Driver.Close | internal/service/browserdriver.go:171-204 | for every way its calls end: which of browser, record and jar change; success takes the record and, when asked to, gives the profile every cookie of the browser; a save that cannot be made changes nothing at all |
| BrowserDriver.Driver.Forget | internal/service/browsersession.go:190-199 | the record goes exactly when it can be read and the delete takes effect |
| BrowserDriver.OpenEffectMeans | internal/service/browserdriver.go:70-141 | the same for every outcome of Open, apart from the method |
| BrowserDriver.CloseEffectMeans | internal/service/browserdriver.go:171-204 | the same for every outcome of Close, apart from the method |
| BrowserRuns.AgreementLostExactly | internal/service/browserdriver.go:70-204 | a step takes a record away from its browser in exactly four ways: a registration behind an error, a record left behind by a stopped browser, a lease written back once the browser is gone, a registered browser dying by itself |
| BrowserRuns.EndsExactly | internal/service/browserdriver.go:197-203 | a live browser ends only by a Close of its session or by itself |
| BrowserRuns.GoneWereStopped | internal/service/browserdriver.go:171-204 | in every run the sessions whose browser is gone are those an earlier Close has stopped and those whose browser has died |
| BrowserRuns.RegisteredAreLive | internal/service/browserdriver.go:70-214 | over every sequence of calls with a sound record store, no lease written back once its browser is gone and no browser dying by itself, every registered session has a live browser |
| BrowserRuns.LiveAreRegistered | internal/service/browserdriver.go:70-214 | if browsers told to stop also stop, the live browsers are the registered ones |
| BrowserRuns.LateRenewRevives | internal/service/browsersession.go:135-149 | at any point of a run where records and browsers agree, a lease that is written back ends that exactly when the browser has been stopped or has died by then |
| BrowserRuns.AgreementLossIsReachable | internal/service/browserdriver.go:171-204 | runs from nothing that lose agreement, by a Close and by a Touch that a Close came into |
| BrowserRuns.OthersUntouched | internal/service/browserdriver.go:70-204 | no call changes another organization's records or jars, whatever has failed before |
| BrowserRuns.OtherBrowsersUntouched | internal/service/browserdriver.go:70-204 | no call changes another organization's browser, registered or not |
| BrowserRuns.JarChangesOnlyOnSave | internal/service/browserdriver.go:171-204 | a jar changes only on Close with save_storage and only to the whole, non-empty jar of the browser |
| BrowserRuns.FailedCaptureKeepsAll | internal/service/browserdriver.go:192-196 | a failed capture leaves browser, record and jar as they were |
| BrowserRuns.CarryOver | internal/service/browserdriver.go:109-121 | what a session is closed with is what the next one that loads the profile starts with |
| BrowserRuns.KeysMeetExactly | internal/repository/memory/browsersession.go:40-42 | keys of two organizations can meet exactly when one id continues the other with a colon |
| BrowserRuns.KeysApart | internal/repository/memory/browsersession.go:40-42 | a key belongs to one organization and one session |
| Ids.EncodeDigits | internal/ids/ids.go:36-42 | the digit loop spells the number and divides it away completely |
| Ids.EncodeOrders | internal/ids/ids.go:36-43 | string order of encodings is numeric order, and encodings are distinct |
| Ids.DigitsSuffice | internal/ids/ids.go:37-42 | 26 digits hold 130 bits |
| Ids.IdIs | internal/ids/ids.go:36-44 | an id is its prefix, an underscore and 26 characters of the alphabet, each the digit of its place |
| Ids.TimeBytesSpell | internal/ids/ids.go:25-31 | the six time bytes spell the time as far as 48 bits go |
| Ids.New | internal/ids/ids.go:19-44 | an id of the time and the random bytes for exactly the valid prefixes, none when there are no random bytes |
| Ids.IdsOrder | internal/ids/ids.go:19-44 | under one prefix ids sort and differ as their numbers do |
| Ids.LaterSortsLater | internal/ids/ids.go:25-31 | an id of a later millisecond sorts later for every time below 2^48 |
| Ids.IdsInjective | internal/ids/ids.go:19-44 | equal ids have the same time and the same random bytes |
| Ids.NewIsValid | internal/ids/ids.go:62-80 | every id New returns passes Validate |
| Ids.ValidExactly | internal/ids/ids.go:62-80 | which text Validate accepts, in both directions: UTF-8 of 1 to 255 safe characters that is no dot name and no device |
| Ids.SafeIsHarmless | internal/ids/ids.go:62-80 | safe text that is no dot name is one path component without white space, colons or backslashes |

## Left out

- HTTP and gRPC handlers, DTOs, configuration, accounts, organizations, projects and sign-in: they translate requests and check fields one at a time.
- The byte formats of ZIP, tar and gzip: archives are lists of records with what reading each yields.
- SHA-256: an arbitrary function of the bytes, or the bytes themselves as its symbol.
- Bytes inside text: outside `Encoding` a character counts as one byte, and whether a name is UTF-8 is a flag.
- Unicode case folding: an arbitrary function of the name.
- Case-insensitive file systems, umask, symlink races and other processes writing below the destination while an archive is extracted.
- The absolute form of a destination and the refusal of a file-system root.
- Process spawning, toolchains, runners, time-outs and the tokens an execution holds: what they come to is an outcome that a step may bring at any time.
- Toolchain output written after the build call has returned.
- Timestamps of rows and the checks on them; the order in which queued rows are claimed, which may be any.
- Deletes of apps and projects and their cascades.
- Collisions of generated ids.
- An upload that reports an error and stores its blob later: the blob has a key nothing refers to.
- Lease expiry and restarts of the browser service; browser identities beyond their kind, and DOM storage.
- Blank identifiers and the trimming of identifiers at the session store: ids are opaque, and a blank profile is none.
- Fetching.FetchAndExtract: does not model the hash taken of the ZIP file in between, which fails when the file itself is over the limit.
- Repack.Repackage: does not model the 64-bit overflow of the running total, which takes header sizes near the limit of the type.
- Repack.RepackWith: does not model the bound on compressed input, which shows only as a tarball that breaks off.
- Extraction.Workspace.ExtractZIP: does not model the creation of missing directories above the destination beyond that it may fail.
- WorkerProtocol.StepKeeps: ProcessOne is the steps of a state machine and not a method, so its update of the record in place is a new value.
- DeployProtocol.StepKeeps: ProcessOne is the steps of a state machine and not a method, so its update of the record in place is a new value.

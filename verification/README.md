# Verified protocols of the process supervisor

A Dafny model of the stateful core of the supervisor's backend, with proofs about it. Each
module follows one component:

- `Wrappers`, `ByteStrings`: optional values and file contents.
- `Services`, `DependencyGraph`: service definitions, the loader's dependency check and the
  group order. Both depth-first walks are one class that updates its `visiting`, `visited`
  and `ordered` fields, proved against cycles as closed walks.
- `GroupJob`, `GroupJobProperties`, `GroupJobReasons`: the two-pass stop, start or restart job.
  PM2, the guards, the probes and the readiness waits are an environment of arbitrary answers,
  including failures that still changed the state of a process. `GroupJobReasons` determines
  the whole report from who was online before, the dependencies and those answers.
- `JobTable`: the table of group jobs, its eviction, and the intent generations by which an
  explicit action overrules a job. Requests, actions and job threads interleave freely.
- `Recovery`, `RecoveryReasons`, `RecoveryPace`, `RecoveryProperties`, `RecoveryLimits`: the recovery automaton of
  one service with its poll gate, failure streak, cooldown, hourly budget and history file,
  over runs with crashes and reloads. Every reading of the clock is a value of its own.
  `RecoveryReasons` says when a restart is issued, `RecoveryPace` how fast restarts can follow each other, `RecoveryLimits` which losses of
  the history the promises survive and what a closed hour can hold.
- `LogArchives`: the shift of numbered archives, slot by slot in a directory, against a plain
  list of archives, newest first.
- `LiveRotation`, `LogReader`, `LogReaderNotices`: rotation of a log that PM2 keeps writing, as a protocol of the
  service, the PM2 daemon with its buffers, the rotation helper and the following reader.
- `LogTail`, `Utf8Decoding`: the backward block reading behind `tail`, on bytes, with UTF-8 decoding that
  replaces broken sequences (RFC 3629, section 3) and with the line boundaries of `splitlines`.
- `ProbeCache`: the single-flight probe cache, with one program counter per thread.
- `ProcessStates`, `ProcessStatesProperties`: the compare-and-set commits of the native
  process manager. Threads carry observations that may be stale when they commit. Runs begin
  from the runtime files of an earlier life, whose states may lack a create time.
- `Pm2Definitions`: the definitions PM2 keeps with its entries against the active ones.
- `ConfigTransaction`: config edits over the file, the checkpoint, the registry and the PM2
  manager.
- `ActionRuns`, `ActionRunsProperties`: life cycle and pruning of one-off action runs.
- `CpuAccounting`: CPU seconds credited to process identities over a run of samples.

Components that update fields are classes whose methods are proved equal to a step function on
values; the properties are then lemmas about that function and about every run of it. A run is
a list of states in which each follows from the one before by some enabled step, so any
interleaving is a run. Files are byte sequences, times are real numbers, and service ids are
numbers because the code only compares and sorts them. The operating system, PM2, the disk
and health probes are parameters with arbitrary answers.

Where the code does less than one might expect, the model follows the code. A lemma shows the
input, and another one the exact condition:

| promise | input that breaks it | exact condition |
|---|---|---|
| hourly budget and cooldown, whatever happens to the history file | `LostHistoryBreaksBudget` | `LossIsHarmlessIff` |
| hourly budget in a closed hour | `ClosedHourAttained` | `ClosedHourBound`, `ClosedHourAttained` |
| a reader loses nothing silently across failed generation writes | `MissedGenerationLosesSilently` | `SilentSwitchIsNext`, `SwitchLosesSkippedFiles` |
| a reader gives a notice only if it lost something | `UninformedNotice` | `NoticeIsExact`, `OpenInforms` |
| a reader loses nothing whenever it opens | `OpenDuringHandoverMisses` | `OpensSafelyIff` |
| the four config stores agree after every edit | `StrandedEdit`, `PendingEditStays` | `ConfigApi.Transact` |
| no process is tracked by two services, with runtime files that lack a create time | `TwoServicesShare` | `StepSharesIff` |
| runtime files equal the states in memory | `FailedSaveDiffers` | `FilesFollowStates` |
| PM2's entries match the active definitions, at the manager's interface alone | `UnknownStartBreaks` | `StartKeepsEntriesIff` |

No route of the supervisor reaches the last one: a definition it starts comes from the registry,
and every registered id is active or retired.

## Model

| member | source | states |
|---|---|---|
| DependencyGraph.Validate | backend/config_loader.py:162-179 | The loader accepts a service list exactly when ids are unique, every dependency names another listed service and there is no cycle; each refusal names a real defect |
| DependencyGraph.DependencyWalk.Visit | backend/config_loader.py:407-422 | The recursive visit terminates, raises (a config error in the loader, `dependency_cycle` in the group order) only for a real cycle, and otherwise leaves the chain of active visits as it was with all in-list dependencies of the visited id listed before it |
| DependencyGraph.DependencyOrder | backend/service_operations.py:47-67 | Raises exactly for a cyclic selection; otherwise the order is a permutation of the selection with every selected dependency before its dependents |
| DependencyGraph.OrderMeansAcyclic | backend/config_loader.py:396-422 | A list with dependencies first certifies that no closed walk along dependencies exists |
| DependencyGraph.RevisitClosesCycle | backend/service_operations.py:52-54 | Meeting an id that is still being visited proves a cycle |
| DependencyGraph.WalkDescends | backend/service_operations.py:47-67 | Along any walk of dependencies the position in the order strictly falls |
| DependencyGraph.SelectionAcyclic | backend/service_operations.py:341-344 | Selecting part of an accepted registry cannot create a cycle |
| DependencyGraph.OrderGroup | backend/service_operations.py:340-344 | Every group of an accepted registry has an order, so a submitted job is never refused for a cycle |
| DependencyGraph.OrderIsPermutation | backend/service_operations.py:47-67 | An order of the index holds every selected definition exactly once |
| GroupJob.JobRunner.StopMember | backend/service_operations.py:388-408 | One turn of the stop pass equals the step that `StopsExplained` characterises: skipped, blocked, refused by a guard, or handed to PM2 with its outcome recorded |
| GroupJob.JobRunner.StartMember | backend/service_operations.py:409-425 | One turn of the start pass with its preflight, PM2 call and readiness wait, new state given in full |
| GroupJob.JobRunner.Run | backend/service_operations.py:372-429 | The job with its inspection loop, both passes and the outer error path produces, for every environment, the report that `JobIsExplained` determines |
| GroupJobProperties.JobKeepsClosed | backend/service_operations.py:372-429 | A whole job keeps "every online service has all its dependencies online", whichever guards, calls and waits fail, even if a failed call changed the state |
| GroupJobProperties.StopsKeepClosed | backend/service_operations.py:311-315 | The same holds after every single member of the stop pass |
| GroupJobProperties.StartsKeepClosed | backend/service_operations.py:245-254 | The same holds after every single member of the start pass |
| GroupJobProperties.StopOneKeepsClosed | backend/service_operations.py:311-334 | Stopping a member is safe because online dependents are either failed members or cause a refusal |
| GroupJobProperties.ReportMeaning | backend/service_operations.py:391-426 | Without an outer error there is exactly one result per member, the job is failed exactly when some result is failed or blocked, and every succeeded, skipped or blocked result tells whether the member is online now |
| GroupJobProperties.OnlineFollowsCalls | backend/service_operations.py:311-334 | Also for failed members: the services online after a job are exactly those that its PM2 calls, in their order and with their answers, leave online |
| GroupJobReasons.JobIsExplained | backend/service_operations.py:372-429 | The job has an outer error exactly if an inspection raises. Otherwise each outcome and each PM2 call is the one that follows from who was online, the dependencies and the answers: blocked exactly by a dependent that should have stopped and did not, or by a dependency with a bad result; stopped exactly if meant, not blocked, not refused and not needed outside; started exactly if eligible, not blocked, not refused, offline, and with all dependencies registered, online and healthy |
| GroupJobReasons.StopsExplained | backend/service_operations.py:388-408 | The same for the stop pass after every member |
| GroupJobReasons.StartsExplained | backend/service_operations.py:409-425 | The same for the start pass after every member |
| GroupJobProperties.CallsRespectDependencies | backend/service_operations.py:389-423 | In the PM2 calls of a job dependents stop before and start after their in-group dependencies, no stop follows a start, and a restart starts only members that were online |
| GroupJobProperties.StartsAreJustified | backend/service_operations.py:409-412 | A restart starts only initially online members whose stop PM2 confirmed |
| GroupJobProperties.JobLeavesOthersAlone | backend/service_operations.py:372-426 | No job changes a service outside its group |
| GroupJobProperties.SmoothJobReachesTarget | backend/service_operations.py:372-426 | If nothing fails the job succeeds and the online set is the old one plus the group, minus the group, or for a restart unchanged |
| GroupJobProperties.SubmittedIsWellOrdered | backend/service_operations.py:336-345 | What a job needs of its member list follows from the loader's check and the order |
| GroupJobProperties.PutNewKey | backend/service_operations.py:379 | Recording a new member appends its result |
| GroupJobProperties.PutKnownKey | backend/service_operations.py:421 | Recording a member again keeps its place in the result list |
| JobTable.Operations.SubmitGroup | backend/service_operations.py:345-360 | Refused exactly when a job is queued or running; otherwise the job is added with the generations of its members and the oldest entries beyond fifty leave with their intents |
| JobTable.Operations.MutateChecked | backend/service_operations.py:287-291 | A job mutates a service exactly when the generation bound at submission is still the current one |
| JobTable.NextKeepsInv | backend/service_operations.py:187-197 | Every step keeps: table within fifty, distinct ids, only the newest job active, intents with the same keys as jobs, generations counting the explicit actions |
| JobTable.RunKeepsInv | backend/service_operations.py:335-360 | The same after any interleaving of requests, explicit actions and job threads |
| JobTable.OneActiveJob | backend/service_operations.py:345-356 | In every run at most one job is queued or running, it is the newest, it is still in the table, and it has its intents |
| JobTable.ExplicitActionsWin | backend/service_operations.py:287-291 | In every run no job mutates a service for which an explicit action was recorded since the submission of that job |
| JobTable.MutationsHappen | backend/service_operations.py:287-291 | In every run a job mutates a service exactly if no explicit action on it was recorded since the submission of that job |
| JobTable.SubmissionsAreAccepted | backend/service_operations.py:345-352 | In every run a submission is accepted exactly if all jobs in the table are finished; the job is then the newest, queued, and bound to the current generations of its members |
| JobTable.TerminalForever | backend/service_operations.py:368-370 | A job once seen succeeded or failed is never seen with another status later |
| JobTable.TerminalStaysTerminal | backend/service_operations.py:368-370 | No single step changes a finished job that stays in the table |
| JobTable.EvictKeepsNewest | backend/service_operations.py:353-355 | Eviction keeps exactly the newest fifty and drops exactly the intents of the others |
| Recovery.Recoverer.Recover | backend/service_operations.py:481-552 | One pass for a service, with all its early returns, equals the step that `StepsAreReasoned` characterises; it answers whether a restart was issued |
| RecoveryReasons.StepsAreReasoned | backend/service_operations.py:481-552 | In every run a poll issues a restart exactly if no job runs, the service is eligible, its process is known and the first probe finds it unhealthy, this completes a full streak for that process, the locks are granted, the process is the same before and after a second unhealthy probe, budget and cooldown allow it and the attempt is recorded durably; what each step adds to the record, the memory and the file is given too |
| RecoveryReasons.RestartsComeFromPolls | backend/service_operations.py:481-552 | Every restart of every run was issued by such a poll |
| RecoveryReasons.RecentIsInHour | backend/service_operations.py:533 | The filter keeps exactly the attempts of the last hour, each by its own clock reading |
| Recovery.Recoverer.RecentAttempts | backend/service_operations.py:533 | Filters the attempts of the last hour, each against its own clock reading |
| Recovery.Recoverer.constructor | backend/service_operations.py:100-147 | A new process starts from the readable history, cut to one hundred attempts of the last hour, with an empty streak |
| RecoveryProperties.RestartsWithinBudget | backend/service_operations.py:531-545 | Over every run with crashes and reloads, among the restarts since the last harmful loss of history any hour holds at most the configured number and any two are at least the cooldown apart; without such a loss these are all restarts, and always any two are a full streak of polls apart |
| RecoveryProperties.RunKeepsBudget | backend/service_operations.py:138-147 | After every step of every run both the memory and the history file account for every restart since the last harmful loss that cannot be forgotten |
| RecoveryPace.NextKeepsPace | backend/service_operations.py:565-581 | Every step, harmful losses included, keeps any two restarts a full streak of polls apart, with ten seconds between the polls of one life of the supervisor |
| Recovery.Recoverer.PollOnce | backend/service_operations.py:565-581 | A poll before ten seconds have passed since the gate last opened does nothing |
| RecoveryProperties.RestartKeepsPromisesIff | backend/service_operations.py:531-545 | From a state with any memory, a pass that issues a restart keeps budget and cooldown if and only if its guard, evaluated on all restarts made so far, would have allowed it |
| RecoveryProperties.RecordRemembers | backend/service_operations.py:533-540 | The recorded entry counts every restart still in the hour; the cut to one hundred is harmless because the loader bounds the budget by one hundred |
| RecoveryProperties.RecentKeepsCount | backend/service_operations.py:144-145 | Filtering by the hour loses nothing any later cut-off would count |
| RecoveryProperties.RestartsAreEarned | backend/service_operations.py:498-510 | A restart comes only after the threshold number of consecutive observations of the same definition, pid, create time and start time as unhealthy, and no observation counts twice |
| RecoveryProperties.RunKeepsStreak | backend/service_operations.py:565-595 | After every step the streak equals the run of unhealthy observations at the end, uninterrupted by actions, jobs, healthy probes or errors |
| RecoveryLimits.ClosedHourBound | backend/service_operations.py:533-537 | In every run a closed window of 3600 seconds holds, of the restarts since the last harmful loss, as many at most as fit at the least gap (the cooldown or a full streak of polls, whichever is longer), and at most one more than the budget; without any gap twice the budget |
| RecoveryLimits.ClosedHourAttained | backend/service_operations.py:533-537 | For every configuration some run that respects the poll gate, and in which the supervisor may crash after each restart, fills a closed hour up to that bound |
| RecoveryLimits.LossIsHarmlessIff | backend/service_operations.py:102-110 | A reload that cannot read the history keeps the promises in every continuation if and only if, a full streak of polls later, the last restart is a cooldown ago and from then on the restarts still in the hour leave room at every tick of a series at the least gap |
| RecoveryLimits.LostHistoryBreaksBudget | backend/service_operations.py:102-110 | A run whose reload cannot read the history makes two restarts ten seconds apart with a budget of one an hour |
| RecoveryLimits.Burst | backend/service_operations.py:498-571 | With the poll gate and crashes in between, the automaton can issue restarts exactly at the least gap as long as its memory leaves room at each tick |
| LogArchives.LogDirectory.DeleteFrom | backend/log_manager.py:139-142 | Deletes exactly the slots numbered `keep` and above, plain or gzip, and changes no other |
| LogArchives.LogDirectory.ShiftArchives | backend/log_manager.py:137-147 | The descending renames hold the newest `keep - 1` archives in slots from 2 on, none overwritten |
| LogArchives.MoveUpKeepsShifting | backend/log_manager.py:143-147 | Each rename of the pass finds its target slot free |
| LogArchives.LogDirectory.RotateStopped | backend/log_manager.py:118-135 | Rotation of a stopped service prepends the base file to the archive list and cuts it to `keep`, exactly at the size limit |
| LogArchives.LogDirectory.PrepareLive | backend/log_manager.py:187-198 | The base file becomes pending exactly when there is no pending file and the limit is reached; a leftover pending file stays |
| LogArchives.LogDirectory.FinishLive | backend/log_manager.py:200-217 | The pending file becomes the newest archive; a failed compression leaves everything as it was |
| LogArchives.FirstSlot | backend/log_manager.py:214-215 | Filling slot 1 completes "prepend and take keep" with slots contiguous from 1 and one file each |
| LogArchives.ArchivesAreNewest | backend/log_manager.py:118-147 | Over any sequence of rotations with changing settings the archives are a prefix of everything ever rotated, newest first, with an exact length |
| LogArchives.HoldsOne | backend/log_manager.py:137-147 | A directory state represents one archive list only |
| LiveRotation.BytesConserved | backend/log_manager.py:187-217 | In every interleaving of writer, daemon and helper the bytes written are the dropped ones, the archives oldest to newest, pending and base, in order, with the daemon's buffers in their places |
| LiveRotation.ArchivedFilesAreClosed | backend/pm2_log_rotation.py:30-46 | No file is archived while the daemon can still write it |
| LiveRotation.FinishConserves | backend/log_manager.py:213-216 | Prepending the pending data and cutting to `keep` moves only the oldest bytes to the dropped ones |
| LiveRotation.NextKeepsInv | backend/log_manager.py:164-217 | Every step keeps the byte order and counts each new base file as announced, due or missed in the generation file |
| LiveRotation.RunKeepsInv | backend/pm2_log_rotation.py:16-47 | The same after every run |
| LogReader.ReaderLosesNothingSilently | backend/log_manager.py:265-332 | In every run a reader without a gap notice has emitted, with the unread rest, exactly what the files hold from its start on, if and only if no switch passed over any bytes; none does unless a generation write failed since it opened |
| LogReader.ReaderFollowsService | backend/log_manager.py:287-320 | In every run, whenever it opened: what a reader without a gap notice emitted, with the rest of its files once the daemon has written its buffers, is exactly what the service wrote behind its start, apart from what went to older files after it opened, if and only if no switch passed over any bytes |
| LogReader.OpensSafelyIff | backend/log_manager.py:287-293 | A reader opened in a state misses nothing in any continuation if and only if at that moment the daemon neither has the renamed file open for new data nor buffers anything for it |
| LogReader.LoudOpensUnsafely | backend/log_manager.py:287-293 | In every other state one or two steps put bytes on disk that the reader never emits, without a notice |
| LogReader.SilentSwitchIsNext | backend/log_manager.py:314-320 | A switch without notice goes to the very next file if and only if no generation write failed since the reader learned its generation |
| LogReaderNotices.NoticeIsExact | backend/log_manager.py:314-320 | If no generation write failed since the reader opened, a switch raises the notice exactly if it does not lead an informed reader to the very next file |
| LogReaderNotices.NoFalseNotice | backend/log_manager.py:287-320 | In every run in which the reader was informed when it opened and every switch led to the very next file, there is no notice |
| LogReaderNotices.OpenInforms | backend/log_manager.py:287-293 | A reader starts at the beginning or the end of the current file, and knows its generation exactly if no generation write is due and the last one is about this file |
| LogReaderNotices.HandoverFreesReaders | backend/log_manager.py:307-308 | A reader of an older file can move on once the handover is marked or the rotation finished, and not while the daemon has the older file open |
| LogReaderNotices.UninformedNotice | backend/log_manager.py:314-316 | A reader opened before the first generation was written announces a gap although it has read everything |
| LogReader.SwitchLosesSkippedFiles | backend/log_manager.py:304-321 | A switch loses nothing if and only if the files it passes over are empty |
| LogReader.MissedGenerationLosesSilently | backend/log_manager.py:164-174 | A rotation that dies before writing the generation lets a reader skip a whole file without a notice |
| LogReader.OpenDuringHandoverMisses | backend/log_manager.py:287-293 | A reader opened before the daemon reopens its files misses what still goes to the renamed file, without a notice |
| LogTail.Tail | backend/log_manager.py:223-246 | For every file and number `n`, reading backward in blocks returns exactly the last `n` lines of the whole decoded file and the file size |
| LogTail.KeepLast | backend/run_log_manager.py:244-262 | The bounded queue keeps exactly the last lines that pass through it |
| LogTail.SuffixDecides | backend/run_log_manager.py:250-257 | A suffix with more than `n` line feeds determines the last `n` lines, wherever it cuts the file, even inside a character |
| LogTail.DecodeCuts | backend/log_manager.py:242 | Decoding with replacement never reaches across a line feed |
| LogTail.LinesCut | backend/log_manager.py:243 | Splitting into lines is independent on both sides of a line feed |
| LogTail.LinesOfBreak | backend/log_manager.py:243 | A line without boundaries and one boundary, a single character or CR LF together, come off the front; with the text that has no boundary this determines every split |
| LogTail.DecodeInvertsEncode | backend/log_manager.py:242 | Well-formed text comes back as it was written |
| Utf8Decoding.FirstUnitIsRight | backend/log_manager.py:242 | The decoder reads the character that stands in front, or else one replacement character for the longest part that could begin one, at least one byte |
| LogTail.AtLeastOneLineEach | backend/log_manager.py:240 | Every line feed in the data accounts for at least one line |
| ProbeCache.HealthChecker.EnterLock | backend/health_checker.py:250-262 | Under the lock a thread gets a fresh cached result, the event registered for its key, or the ownership of a new one |
| ProbeCache.OneProbePerKey | backend/health_checker.py:255-262 | With any number of threads and keys no two threads probe the same key at once |
| ProbeCache.WaitersAreServed | backend/health_checker.py:264-279 | Whoever waits on an unset event waits for a thread that is still probing that key, and either end of the probe lets the waiter go on |
| ProbeCache.HandedOutAreFresh | backend/health_checker.py:250-254 | A cached result handed out came from a probe of that key and was younger than the time to live when the thread read the clock |
| ProbeCache.FreshResultsAreUsed | backend/health_checker.py:251-262 | Under the lock a thread gets the cached result exactly if it is younger than the time to live, otherwise the event of whoever probes, otherwise the probe |
| ProbeCache.RunKeepsInv | backend/health_checker.py:248-279 | Registrations, owners, waiters and cache agree after every interleaving |
| ProcessStates.ProcessManager.MarkStoppedIfCurrent | backend/process_manager.py:597-642 | Commits exactly when pid and create time are those observed; then the state of this service changes, and its file too unless the write raises |
| ProcessStates.ProcessManager.CommitAdoption | backend/process_manager.py:764-791 | Adopts exactly when the state is the one evaluated and no other service has the pid stored without a create time or with one within a second; then stores the candidate's identity, and the file unless the write raises |
| ProcessStatesProperties.AdoptionsAreCompared | backend/process_manager.py:742-791 | The same in every run, with the candidate unchanged: an adoption never overwrites a state stored after its evaluation that differs from the one evaluated |
| ProcessStatesProperties.StoresAreCompared | backend/process_manager.py:597-642 | In every run a stop or forget replaces the state exactly if the stored pid and create time are those observed, and a start always |
| ProcessStates.ProcessManager.ForgetIfCurrent | backend/process_manager.py:248-263 | Removes the state exactly when it still has the identity found dead, and the file unless the unlink raises |
| ProcessStatesProperties.AdoptionNeverShares | backend/process_manager.py:742-791 | Whatever states are stored, an adoption never makes the adopting service share a live process |
| ProcessStatesProperties.StepSharesIff | backend/process_manager.py:272-279 | With old runtime files, sharing begins if and only if a spawn gets a pid that another service was loaded with, without a create time, or a foreign process gets a pid two services have so |
| ProcessStatesProperties.NobodySharesAProcess | backend/process_manager.py:742-791 | In every interleaving that begins without states, or with states that have their create times, no live process is ever tracked by two services |
| ProcessStatesProperties.SharingIsLoaded | backend/process_manager.py:774-779 | In every interleaving two services track the same live process only if one of them still has the state it was loaded with, without a create time |
| ProcessStatesProperties.TwoServicesShare | backend/process_manager.py:83-88 | A service loaded with a pid and no create time, and a spawn of another one that gets this pid: both track the live process |
| ProcessStatesProperties.StaleObservationsDoNotErase | backend/process_manager.py:597-642 | In every interleaving a stop or forget that finds the identity judged dead removes the very state that was judged, never one stored later; one that finds another identity changes nothing |
| ProcessStatesProperties.FilesFollowStates | backend/process_manager.py:462-466 | At every release of the state lock the runtime file of a service holds a state the service had, at a moment since which every save for it has failed; a save that succeeds brings file and state together |
| ProcessStatesProperties.FailedSaveDiffers | backend/process_manager.py:462-466 | A start whose save raises leaves a state that its file does not have |
| ProcessStatesProperties.AdoptsCandidate | backend/process_manager.py:755-761 | The create time read again at commit proves that the candidate is still the process evaluated |
| Pm2Definitions.Pm2Manager.Start | backend/pm2_manager.py:546-587 | Refuses stale definitions and running services; otherwise creates the entry from the definition or revives the one PM2 has, and reports online exactly when PM2 took it, it came online and a check confirmed it |
| Pm2Definitions.Pm2Manager.Stop | backend/pm2_manager.py:589-676 | Keeps all entries with their definitions; succeeds exactly when the authoritative state afterwards is not alive |
| Pm2Definitions.Pm2Manager.Delete | backend/pm2_manager.py:690-696 | Removes this entry or none; success means that it is gone |
| Pm2Definitions.Pm2Manager.ForgetService | backend/pm2_manager.py:698-708 | Refuses running services; only after a successful deletion does the definition move from active to retired |
| Pm2Definitions.Pm2Manager.DeleteStopped | backend/pm2_manager.py:249-264 | The cleanup loop removes only stopped entries it was given; it gets through exactly if no deletion interrupts it, and ends in a foreign error exactly if the first interruption is one |
| Pm2Definitions.Pm2Manager.Reconcile | backend/pm2_manager.py:203-277 | Accepted if whatever runs stays with the same runtime fields and no deletion fails; refused if something running goes or changes them; under any result every entry that stays with the same runtime fields is untouched; ended by a foreign error exactly as the answers to the deletions say, with the definitions as they were |
| Pm2Definitions.ReconcileMeans | backend/pm2_manager.py:216-248 | The same told by entries, active and incoming definitions alone |
| Pm2Definitions.StepKeepsEntries | backend/pm2_manager.py:203-277 | Every operation, with any failure, keeps "each entry was made from the active definition" |
| Pm2Definitions.RunKeepsEntries | backend/pm2_manager.py:537-708 | The same over all runs of starts, stops, deletions, forgets and reloads, also when PM2 already held matching entries at the start |
| Pm2Definitions.StartKeepsEntriesIff | backend/pm2_manager.py:537-550 | A start breaks that agreement if and only if PM2 takes an entry for an id that is neither active nor retired |
| Pm2Definitions.UnknownStartBreaks | backend/pm2_manager.py:537-550 | At the manager's own interface, a start of a definition it never saw leaves an entry that matches no active definition |
| Pm2Definitions.OnlineServicesSurvive | backend/pm2_manager.py:225-248 | No reload touches an online entry, and an accepted one keeps its definition with the same runtime fields |
| Pm2Definitions.ActiveStaysRegistered | backend/pm2_manager.py:266-275 | An id that was active once is active or retired after any operation |
| Pm2Definitions.SortedIds | backend/pm2_manager.py:249-260 | The cleanup visits every id exactly once in rising order |
| ConfigTransaction.ConfigApi.ReloadRegistry | backend/routes/config_api.py:64-84 | Whatever is on disk: accepted means all four stores hold it; a refusal rolls the disk back and keeps registry and active definitions; each ending occurs exactly under a condition on the state before |
| ConfigTransaction.ConfigApi.WriteEdit | backend/config_writer.py:74-102 | The file is replaced only by an edited config that loads; otherwise it is untouched |
| ConfigTransaction.ConfigApi.Transact | backend/routes/config_api.py:123-172 | After a create, update, delete or reorder, whatever the file held before, the four stores agree if and only if they did and the edit does not apply or is invalid, or a valid edit is taken over and checkpointed, or refused and rolled back with the manager in step; after a foreign or checkpoint error the file holds the edit |
| ConfigTransaction.NextEditRepairs | backend/routes/config_api.py:64-84 | With checkpoint I/O working and no foreign error, the next valid edit also brings a manually edited or stranded file back into step |
| ConfigTransaction.PendingEditStays | backend/config_writer.py:95-102 | A request that does not apply leaves a manual edit on disk and the stores apart, with all I/O working |
| ConfigTransaction.StrandedEdit | backend/routes/config_api.py:66-80 | With working checkpoint I/O, a manifest that cannot be unlinked leaves an edit on disk that no other store has |
| ConfigTransaction.ConfigApi.Session | backend/routes/config_api.py:123-240 | Over any sequence of edits, deletions with forget, manual edits, reloads, starts and stops, at each release of the lock checkpoint, registry and manager agree on a config that loads, PM2's entries match it, and the file agrees too unless it holds a manual edit that no request has taken up; after a reload it does |
| ConfigTransaction.ConfigApi.RemoveService | backend/routes/config_api.py:176-200 | Deleting a running service is refused before anything is written; otherwise the stores agree under the same condition as for any edit, whatever the file held, and a committed deletion leaves the config without the service |
| ConfigTransaction.ConfigApi.ForgetGone | backend/routes/config_api.py:191 | Forgetting the deleted id afterwards leaves the active definitions alone |
| ConfigTransaction.ConfigApi.GroupOrder | backend/service_operations.py:340-344 | In every state the transactions reach, every group of the registry has an order |
| ConfigTransaction.ConfigApi.Startup | backend/app.py:128-184 | Startup succeeds exactly if the earlier checkpoint, or without one the file, loads and the needed restore and save work; then all four stores hold it, even if the file was invalid |
| ConfigTransaction.UpsertReplacesOrAppends | backend/config_writer.py:105-131 | An upsert replaces one service of that id in place or appends, and fails exactly for an unknown id that may not be created |
| ConfigTransaction.WithoutRemoves | backend/config_writer.py:134-145 | A deletion removes exactly the services with that id and fails exactly if there are none |
| ConfigTransaction.ReorderPermutes | backend/config_writer.py:198-229 | A reorder is accepted exactly for a duplicate-free list of all ids and yields the same services in that order |
| ConfigTransaction.ReorderKeepsAccepted | backend/config_writer.py:232-239 | A reordered config never fails the dependency check |
| ConfigTransaction.NeededServiceStays | backend/config_loader.py:396-406 | A service that another one depends on cannot be deleted |
| ActionRuns.ActionRunner.PruneCompleted | backend/action_runner.py:207-220 | The loop that removes from the queue it walks has the effect of the specified pruning on all maps |
| ActionRuns.ActionRunner.Register | backend/action_runner.py:180-186 | Registration and pruning are one locked step |
| ActionRuns.ActionRunner.FinishRun | backend/action_runner.py:256-268 | The waiter ends the run, keeps a cancelled status, and prunes |
| ActionRunsProperties.PruningRemovesOldestFinished | backend/action_runner.py:207-220 | Pruning never removes an unfinished run, removes the oldest finished first, no more than needed, and fits the limit unless only unfinished runs are left |
| ActionRunsProperties.UnfinishedRunsStay | backend/action_runner.py:209-214 | In every run of steps an unfinished run stays in all maps and in its queue, also after a cancel |
| ActionRunsProperties.FinishedRunsFit | backend/action_runner.py:207-220 | Finished runs of an item never exceed the limit at a release of the lock |
| ActionRunsProperties.StatusIsFinal | backend/action_runner.py:256-266 | A status that has left running is never seen changed at any later moment of a run |
| ActionRunsProperties.StepsMeanThis | backend/action_runner.py:256-294 | A run starts as running and unfinished, ends as succeeded exactly for exit code zero unless cancelled before, and is cancelled exactly if it was running |
| ActionRunsProperties.NextKeepsInv | backend/action_runner.py:180-268 | The run, process and item-config maps and the queues always name the same runs |
| CpuAccounting.ResourceSampler.Sample | backend/resource_sampler.py:94-270 | A figure is due exactly if the root can be read and the cached sample is available, of the same process and older than the time to live; a younger one is reused, any other is replaced; the figure is the sum of the shares of all processes read |
| CpuAccounting.CollectTakesAll | backend/resource_sampler.py:198-221 | Every process that could be read has the counter of its last reading, and no other has one |
| CpuAccounting.ReportsNeverExceedCounters | backend/resource_sampler.py:233-252 | Over any run all CPU time the samples report together never exceeds the sum of the latest counters of all processes ever seen |
| CpuAccounting.DeltaIsGrowth | backend/resource_sampler.py:233-252 | The CPU time a sample reports is exactly the growth of what its processes are credited with; without a report nothing is credited |
| CpuAccounting.NeverOvercounted | backend/resource_sampler.py:233-252 | Over any run the CPU seconds credited to a process identity never exceed its latest counter, even if it is skipped, reappears or is first seen late |
| CpuAccounting.CreditIsExact | backend/resource_sampler.py:239-249 | Between two comparable samples a process seen in both is credited exactly the growth of its counter, one created in between all of it, and an older one seen for the first time nothing |
| CpuAccounting.ShareFits | backend/resource_sampler.py:239-249 | The share of one process together with what it was credited before stays within its counter |
| CpuAccounting.CreditOf | backend/resource_sampler.py:238-249 | Each identity is credited its own share once per sample and nothing else |
| CpuAccounting.SampleKeepsInv | backend/resource_sampler.py:107-129 | Cached counters stay the latest ones and identities missing from them are older than the cached sample |

## Left out

- Group job: it runs without another actor; PM2 promoting a launching service, or a manual action, between two members is not part of it (the job table covers explicit actions).
- Group job: result messages are reduced to outcomes, and the action controls, the definition check and the mutation locks are one refusal.
- Group job: autostart with its retries (backend/service_operations.py:431-454).
- GroupJobProperties.JobKeepsClosed: says nothing about health, only about services being online.
- JobTable: uuid job ids are taken as fresh; the results stored with a job are those of the group job module.
- RecoveryProperties.RestartsWithinBudget: counts by the recorded attempt time, which the code reads just before the restart reaches PM2, and in half-open hours; `ClosedHourBound` covers closed ones and `LossIsHarmlessIff` says exactly which lost histories are harmful.
- Recovery: the wall clock of the history and the monotonic clock of the poll gate advance together and never go back; the observer's extra wait after each poll, which only makes polls rarer, is left out. A restart that PM2 refuses counts like any other, so the startup grace of a new process does not space the restarts.
- Recovery: a poll is one step, although its probes run without a lock and an action may be recorded meanwhile; such an action gives the service another process, so the streak the poll then stores is bound to an identity that no later poll sees.
- Recovery: event lists, exit codes and the observer of PM2 states appear only as steps that may write the history file; changing the recovery settings of the service during a run is not covered.
- Live rotation: one service, no crash in the middle of prepare or finish apart from the generation write, no corrupt generation file, no stop-time rotation while pending data is left over; the daemon and the reader have no class of their own, so rotation and reader are step functions on values.
- Log reader: the check, the final drain and the opening of the new file are one step; keepalive lines, splitting of chunks into lines, and the branch for a truncated file are left out.
- LogArchives: a gzip file is identified with the data it was made from; rename and delete do not fail halfway.
- LogTail.Tail: reads a file that does not change meanwhile.
- ProbeCache: a disabled check and a time to live of zero bypass the cache and are left out.
- ProbeCache.HandedOutAreFresh: age counts from the clock reading before the lock, so a result can be older when it is returned.
- Process manager: spawn and commit are one step with an identity new to the system, and a pid is not reused within the one-second tolerance of the check; a spawn that ends before its create time is read makes the start raise, because reading its process group fails next; loaded create times are those of real processes, no two services loaded with the same one; signals, the port lookup, active and retired checks and the native reconcile are left out.
- PM2: snapshots are authoritative, so cached and stale snapshots are left out, and so is the cleanup of orphans at startup; manifests, port checks and log rotation count only as reasons to fail.
- Config: YAML parsing and field checks other than ids and dependencies are one flag; action groups, backups, the file browser and pruning of the sampler are left out.
- ConfigTransaction.ConfigApi.Session: is about the PM2 manager and needs working checkpoint I/O and no foreign error in the cleanup; Transact says exactly what happens otherwise.
- Action runs: run ids are taken as fresh; signals, log capture, the footer line and the retention of run log files (backend/run_log_manager.py:208-233) are left out.
- CPU accounting: rounding to percent, memory figures and the reasons of a failed reading are left out; counters do not fall and every seen process was created before the next sample's time.
- Loader and group order: the two visit functions share one class, although the loader's has no ordered list.
- Authentication, streaming over HTTP, the frontend, appearance settings, Python discovery and the PM2 engine updater.

# Verified model of the dev tooling

This project models the parts of the repository that own operating system processes, share development ports and
encode or decode data, and proves what they promise. `dafny verify dfyconfig.toml` checks all of it.

| files | what they model |
|---|---|
| `ProcessTree` | the closure over the process table that the shutdown code shares |
| `LauncherModel`, `Launcher`, `LauncherLife`, `LauncherClass` | the dev Electron launcher: its task queue, shutdown, restarts and ends of the app |
| `LauncherHost`, `AppTermination`, `LauncherProcesses` | what the launcher signals: the app's tree, its runner, its other children |
| `TerminationTrace` | that the launcher's machine and this process code agree on every termination |
| `Supervisor`, `SupervisorClass` | the dev-task supervisor |
| `OwnedExecutor`, `OwnedOutcome`, `OwnedExecutorClass`, `WindowsCleanup` | the executor of owned Node children, how its runs settle, and its Windows helper |
| `BakeryLock`, `PortReservations`, `RunnerPorts`, `MobilePlugin`, `MobilePluginClass` | the file lock, the port reservations made under it, and the runner's and the mobile plugin's use of them |
| `Bytes`, `ZipArchive`, `Wire`, `FramedReader`, `CleanupDigests`, `CleanupReading` | the ZIP writer, the protobuf wire format, the frame reader and the hashed bytes |
| `Text`, `Ordering`, `Numbers`, `Manifest`, `ManifestMerge` | reading, printing and merging macOS update manifests |
| `SchemaClosure` | the reference closure of the API fixture |
| `SleepClock` | sleep detection and clock correction |

A state machine appears twice: as a datatype with one function a step, about which whole runs are proved by induction
over arbitrary sequences of events, and as a class with the source's fields, whose methods are each proved to change the
fields as that function says. What the outside world does is always an event or a parameter that nothing is assumed of.
A deadline is stated in three parts: no time passes beyond it; until it is met the event loop always has a next step, and
can make only so many; and the event loop left to itself meets it.

## What the model assumes

- Time is exact, a timer fires when it is due, and calls to the host take no time. Without this no deadline is exact.
- A PID together with its start time names one process. The port coordinator knows owners by PID alone, and there a new
  process may get the PID of a dead one at any time. The kill timing of `AppTermination.TerminateAppTree` also takes
  it that a process which has stopped running does not run again.
- The promise queue of the launcher runs every ready task before the next timer or event, as JavaScript microtasks do,
  and `start` is called once, first.
- Vite lets a server listen only after its configure hooks have run. Removing one's own reservation file does not fail.
- Hash, CRC and UTF-8 validity are parameters; texts in byte formats are given by their UTF-8 bytes.

## Where the code and its comments disagree

- `apps/web/dev.ports.ts:25` says that a second live child of a reservation is rejected. The code accepts one from the
  same process. `PortReservations.AttachmentExact` and `PortReservations.StrictSharingExact` say exactly when.
- `scripts/lib/dev-process-tree.ts:46` says roots first. With several roots the first root's subtree comes first.
- `scripts/lib/dev-electron-launcher.ts:120-123` reaps an app that ends during shutdown. In microtask order that never
  happens.
- A manifest that can be read cannot always be printed and read again (`Manifest.QuotedVersionIsLost`): a quoted
  `version: '1.0'`, as in the repository's own test, is printed without quotes and then refused as a number.
- An extra that is a number of 10^21 or more, or below 0.000001 but not 0, is printed with an exponent and comes back as
  a string (`Numbers.PrintIsRead`). A file size of 10^21 or more is printed so too, and the manifest is then refused
  (`Manifest.LargeSizeIsLost`).
- A dead process's slot of the port lock is seen to be stale only until a new process has its PID. From then on it holds
  up whoever has a later ticket, or all if it was still choosing, until they give up after 30 s (`BakeryLock.HoldsUp`,
  `BakeryLock.NoDeadlock`).
- `TextDecoder` drops a leading byte order mark, so a text that starts with one does not come back (`Wire.TextKeptExactly`).
- A text of field 6 after a number of field 6 makes the HelloAck reader throw, where other fields would be replaced.
- A frame reader call that timed out stays queued and swallows its frame (`FramedReader.Reader.OnTimeout`).
- A run of the executor that was cancelled for another reason is rejected as NODE_SPAWN if an error is reported once its
  PID is no longer held (`OwnedOutcome.OutcomeExact`).
- At the very moment of waking, the trace clock is off if it stood still all through the sleep; and where
  the monotonic clock advanced by more than the sleep's length, all times on one side of it are off
  (`SleepClock.ToWallInverts`).

## Model

| member | source | states |
|---|---|---|
| `Launcher.ExitsInTime` | scripts/lib/dev-electron-launcher.ts:58-75 | However a run goes on after the first `shutdown` call: only a bounded number of steps of progress can be made before the one exit, which has that call's code, comes within 5700 ms of it and finds the queue drained and no app or termination left; as long as it has not come, a step of progress is possible |
| `Launcher.ShutdownExits` | scripts/lib/dev-electron-launcher.ts:58-75 | Left to itself after that call, the event loop reaches that exit, whatever the environment shows at each look |
| `Launcher.ExitsOnceNeverLate` | scripts/lib/dev-electron-launcher.ts:58-75 | In every run there is at most one exit, and no time beyond 5700 ms after the first call passes without it |
| `Launcher.ShutdownGoesOn` | scripts/lib/dev-electron-launcher.ts:58-75 | A launcher that is shutting down is never stuck: the ready task, the shutdown loop, the wait that is due or else the passing of time is an enabled event |
| `Launcher.ProgressLowers` | scripts/lib/dev-electron-launcher.ts:58-75 | Each such event lowers a measure of the time left, the queue, the phase and the wake time; no other event raises it |
| `Launcher.SpawnsOnlyWhenClear` | scripts/lib/dev-electron-launcher.ts:83-101 | A new app is spawned only while nothing of an earlier one is being terminated or still queued to be, and never after the first shutdown call |
| `Launcher.OneTerminationAtATime` | scripts/lib/dev-electron-launcher.ts:181-188 | While a termination is in flight no app is current, and no second one is ready or queued as a reap |
| `Launcher.NoUnexpectedEndDuringShutdown` | scripts/lib/dev-electron-launcher.ts:120-123 | In microtask order no event can end the current app once shutdown has begun, so the reap of that branch never happens |
| `Launcher.InvKept` | scripts/lib/dev-electron-launcher.ts:57-148 | Every event keeps the invariant the results above rest on: where reaps and session ends may stand in the queue, and how late each wait can end |
| `LauncherLife.CrashRestarts` | scripts/lib/dev-electron-launcher.ts:120-148 | After an unexpected end with any code but 0, 69 and 70, or by a signal: however the run goes on without a shutdown, nothing is spawned while the old app is reaped, for at most 4500 ms, and then exactly one new app is, if spawning works |
| `LauncherLife.CrashRestartsByItself` | scripts/lib/dev-electron-launcher.ts:120-148 | Left to itself the launcher gets there, whatever the looks show |
| `LauncherLife.QuitEndsSession` | scripts/lib/dev-electron-launcher.ts:136-169 | After an end with code 0 no app is ever spawned again, however the run goes on; a shutdown with code 0, unless another was called first, begins within 4500 ms |
| `LauncherLife.QuitsByItself` | scripts/lib/dev-electron-launcher.ts:136-169 | Left to itself the launcher gets there |
| `LauncherLife.FatalStaysDown` | scripts/lib/dev-electron-launcher.ts:124-135 | After code 69 or 70 nothing is spawned and the session is not ended until the build changes; after 69 not even a reap runs |
| `LauncherLife.EndIsReaped` | scripts/lib/dev-electron-launcher.ts:120-135 | After every other unexpected end the reap of that app is the next thing that runs |
| `LauncherLife.AppsAreNumbered` | scripts/lib/dev-electron-launcher.ts:83-101 | A step that brings a new app spawns exactly one, the next in number, only while none is current or one has just been stopped to be replaced, and never after the first shutdown call |
| `LauncherLife.RestartIsDebounced` | scripts/lib/dev-electron-launcher.ts:45-55 | A restart is queued exactly 750 ms after a build change that no other one followed, once for it |
| `LauncherLife.RestartReplaces` | scripts/lib/dev-electron-launcher.ts:181-188 | A restart stops the current app and spawns the next one at the end of that, at once where there is nothing to stop |
| `LauncherLife.StopEndsInSpawn` | scripts/lib/dev-electron-launcher.ts:181-188 | The end of a stop for a restart spawns the next app, unless a shutdown came |
| `LauncherLife.PollsAgain` | scripts/lib/dev-electron-launcher.ts:103-110 | A running app is polled every 1500 ms, except on Windows |
| `LauncherLife.ChildWaitBegins` | scripts/lib/dev-electron-launcher.ts:191-203 | With no child left the launcher exits at once, and otherwise waits |
| `Launcher.NextTermination` | scripts/lib/dev-electron-launcher.terminate.ts:42-56 | A waiting termination wakes no later than its deadline, and what follows never ends later than it could have before |
| `LauncherModel.NextPoll` | scripts/lib/dev-electron-launcher.terminate.ts:49-53 | The next poll is in the future, at most 200 ms away and never past the deadline |
| `LauncherClass.DevElectronLauncher.constructor` | scripts/lib/dev-electron-launcher.ts:30-38 | A new launcher is the initial state |
| `LauncherClass.DevElectronLauncher.StartApp` | scripts/lib/dev-electron-launcher.ts:83-101 | `startApp` changes the fields as `Spawn` says |
| `LauncherClass.DevElectronLauncher.StopApp` | scripts/lib/dev-electron-launcher.ts:181-188 | `stopApp` up to its await: the current app becomes an expected end and its termination begins; where nothing has to be awaited a restart goes on at once |
| `LauncherClass.DevElectronLauncher.OnBuildOutputChanged` | scripts/lib/dev-electron-launcher.ts:45-55 | Arms the debounce timer anew, unless shutting down |
| `LauncherClass.DevElectronLauncher.RestartTimerFires` | scripts/lib/dev-electron-launcher.ts:48-54 | Queues one restart |
| `LauncherClass.DevElectronLauncher.PollFires` | scripts/lib/dev-electron-launcher.ts:103-110 | Re-arms the snapshot poll of a running app |
| `LauncherClass.DevElectronLauncher.BeginShutdown` | scripts/lib/dev-electron-launcher.ts:58-67 | `shutdown` up to its first await; a second call changes nothing |
| `LauncherClass.DevElectronLauncher.OnAppGone` | scripts/lib/dev-electron-launcher.ts:112-148 | The end of the current app changes the fields as `AppGone` says, whose outcome over runs `LauncherLife` proves; the end of any other app changes nothing |
| `LauncherClass.DevElectronLauncher.RunNextTask` | scripts/lib/dev-electron-launcher.ts:77-81 | The queue runs its first task as `RunTask` says |
| `LauncherClass.DevElectronLauncher.TerminationTimerFires` | scripts/lib/dev-electron-launcher.terminate.ts:42-56 | A wait of the termination in flight polls again or ends; after a restart's stop the next app starts |
| `LauncherClass.DevElectronLauncher.StopLauncherChildren` | scripts/lib/dev-electron-launcher.ts:191-203 | After the queue has drained: exit at once, or wait for leftover children |
| `LauncherClass.DevElectronLauncher.ChildTimerFires` | scripts/lib/dev-electron-launcher.ts:200-202 | The wait for children polls again or ends with the exit |
| `ProcessTree.ChildrenByParent` | scripts/lib/dev-process-tree.ts:40-44 | The children of a PID are exactly the PIDs whose entry names it as parent, each once |
| `ProcessTree.CollectDescendants` | scripts/lib/dev-process-tree.ts:47-62 | For any finite graph, cycles included: exactly the PIDs reachable from the roots, each once, every non-root after one of its parents; the first root comes first, and its whole subtree before anything else |
| `ProcessTree.ReachableIsInTree` | scripts/lib/dev-process-tree.ts:40-62 | Reachability along the child map is descent by the table's parent links |
| `ProcessTree.Tree` | scripts/lib/dev-process-tree.ts:82-93 | Exactly the roots and their descendants in the table |
| `LauncherProcesses.IsAncestor` | scripts/lib/dev-electron-launcher.ts:171-179 | True exactly if the PID lies 1 to 64 parent steps up with every PID on the way above 1 |
| `LauncherProcesses.AncestorHoldsDescendant` | scripts/lib/dev-electron-launcher.ts:171-179 | A process is in the tree of each of its ancestors |
| `LauncherProcesses.AncestorCollectsLauncher` | scripts/lib/dev-electron-launcher.ts:171-179 | A runner that `isAncestor` accepts has the launcher in its `collectDescendants` |
| `LauncherProcesses.EndDevSession` | scripts/lib/dev-electron-launcher.ts:151-169 | Sends the runner one SIGINT exactly if it is an ancestor (on Windows one tree kill), and nothing else |
| `LauncherProcesses.StopLauncherChildren` | scripts/lib/dev-electron-launcher.ts:191-203 | SIGTERM to exactly the launcher's descendants, and SIGKILL to exactly those that the last round of checks finds alive: a round at once, one every 200 ms while somebody is alive, and a last one at 1200 ms; it ends earlier only where a round found nobody |
| `LauncherProcesses.KillAfterGrace` | scripts/lib/dev-electron-launcher.ts:197-203 | The rounds of checks, each at its time, and who is killed by the last one |
| `AppTermination.CaptureSnapshot` | scripts/lib/dev-electron-launcher.terminate.ts:58-66 | The snapshot holds exactly the app's tree with its start times; an app that is not in the table leaves it as it was |
| `AppTermination.Subtree` | scripts/lib/dev-electron-launcher.terminate.ts:61-65 | The app's whole tree, and exactly its direct children |
| `AppTermination.TerminateAppTree` | scripts/lib/dev-electron-launcher.terminate.ts:68-153 | What is signalled and when: one SIGTERM, in a stop to the app and in a reap to exactly those of its direct children that are still the same processes, if a signal ended it; then one SIGKILL to exactly who must die by the look made at the moment of the kill, not before 4000 ms unless the backend subtree was seen drained for 500 ms before that; after it the wait ends with its budget or when nothing killed remains, and all of it within 4500 ms |
| `AppTermination.BeginPosix` | scripts/lib/dev-electron-launcher.terminate.ts:89-116 | The tracked processes are those of the snapshot whose start time still holds; nothing is signalled if there are none; who gets the SIGTERM, exactly |
| `AppTermination.WaitUntilSettled` | scripts/lib/dev-electron-launcher.terminate.ts:42-126 | Looks at once, then every 200 ms and at 4000 ms, up to the first look that shows nothing tracked running, or the backend drained for 500 ms |
| `AppTermination.DrainThenKill` | scripts/lib/dev-electron-launcher.terminate.ts:118-148 | After the graceful wait one SIGKILL goes to each of those who must die by a look made then |
| `AppTermination.KillSurvivors` | scripts/lib/dev-electron-launcher.terminate.ts:128-148 | One look, SIGKILL at once to exactly who must die by it, and the last wait; no wait exactly if nobody does |
| `AppTermination.Killed` | scripts/lib/dev-electron-launcher.terminate.ts:129-139 | Exactly those who must die by a look, each once; none exactly if nothing tracked runs |
| `AppTermination.WhoDies` | scripts/lib/dev-electron-launcher.terminate.ts:130-139 | Every tracked process still running dies; no zombie and no reused tracked PID does; whoever else dies descends from a survivor |
| `AppTermination.DrainedExactly` | scripts/lib/dev-electron-launcher.terminate.ts:121-123 | The backend is drained exactly when something tracked still runs and none of it is in the backend's tree |
| `AppTermination.RemainsExactly` | scripts/lib/dev-electron-launcher.terminate.ts:141-147 | A killed process remains until it is gone from the table, a zombie, or the app and its exit is known |
| `AppTermination.WaitUntilGone` | scripts/lib/dev-electron-launcher.terminate.ts:42-148 | Looks in the same way for at most 500 ms, up to the first look that shows nothing killed left |
| `AppTermination.WaitUntilExited` | scripts/lib/dev-electron-launcher.terminate.ts:82-82 | Looks in the same way for at most 4000 ms, up to the first look after the exit event |
| `AppTermination.BackendTree` | scripts/lib/dev-electron-launcher.terminate.ts:103-106 | Exactly the backend's tree by the first look, or nothing if there is no backend |
| `TerminationTrace.PosixFollows` | scripts/lib/dev-electron-launcher.terminate.ts:42-153 | Whatever looks, kills and times `TerminateAppTree` leaves behind, the launcher's machine, given what the looks showed, waits for the same looks and ends that termination at the same moment |
| `TerminationTrace.WindowsFollows` | scripts/lib/dev-electron-launcher.terminate.ts:76-87 | The same for the wait after `taskkill` |
| `TerminationTrace.FirstWaitPolls` | scripts/lib/dev-electron-launcher.terminate.ts:42-56 | The machine's first wait is woken exactly when `waitFor` looks |
| `TerminationTrace.ShutdownFollows` | scripts/lib/dev-electron-launcher.ts:58-75 | A shutdown that finds an app running has a run in which that termination takes exactly these answers, and which then turns to the launcher's other children |
| `TerminationTrace.ShutdownTakesAsLong` | scripts/lib/dev-electron-launcher.ts:181-203 | So for every termination by the process code there is a run of the shutdown that ends it at the same moment |
| `TerminationTrace.ChildrenTakeAsLong` | scripts/lib/dev-electron-launcher.ts:191-203 | Whatever the rounds of checks show, the machine waits for the same rounds and makes its exit when the process code has ended its wait |
| `Supervisor.ExitsWithinGrace` | scripts/dev-supervise.lib.ts:155-173 | However a run goes on after the first stop: only a bounded number of steps of progress can be made before the one exit, which has the exit code and comes within the grace period; as long as it has not come, a step of progress is possible |
| `Supervisor.StopExits` | scripts/dev-supervise.lib.ts:155-173 | Left to itself after the first stop, the event loop reaches that exit, whatever the host answers |
| `Supervisor.ExitsOnceNeverLate` | scripts/dev-supervise.lib.ts:155-173 | In every run at most one exit, and no time passes beyond the grace period after the first stop without it |
| `Supervisor.ProgressLowers` | scripts/dev-supervise.lib.ts:163-173 | Once stopping, a due grace timer, a due drained check or time passing lowers a measure that no other event raises; the grace timer's step is the exit |
| `Supervisor.NothingLeftBehind` | scripts/dev-supervise.lib.ts:175-210 | At the exit every PID that was asked to stop, or collected since, has been seen dead or sent SIGKILL |
| `Supervisor.ExitsOnceDrained` | scripts/dev-supervise.lib.ts:169-200 | At each look, every 50 ms, a stopping supervisor exits exactly if every command has exited and no target is alive |
| `Supervisor.ExitCodeExact` | scripts/dev-supervise.lib.ts:139-152 | The exit code is 0 if and only if every command had exited cleanly before any signal, failure or orphaning |
| `Supervisor.StopsAsToldTo` | scripts/dev-supervise.lib.ts:107-162 | In every run the supervisor stops exactly by the first signal, loss of its parent, failing exit or last clean exit; it then has that event's exit code (130, 143, 129, 143, the failing code or 1, 0) and has sent its signal to exactly the trees of the commands that had not exited |
| `Supervisor.StopAsksEveryTree` | scripts/dev-supervise.lib.ts:161-162 | The first stop sends its signal to exactly the trees of the commands that have not exited |
| `Supervisor.GraceKillsEveryTree` | scripts/dev-supervise.lib.ts:163-168 | The end of the grace period kills what is left and every tree as it is by then |
| `Supervisor.CollectExact` | scripts/dev-supervise.lib.ts:175-185 | A PID is a target exactly if it was one before or is in the tree of a command that has not exited |
| `Supervisor.AddNewExact` | scripts/dev-supervise.lib.ts:180-180 | Adding a tree to the set of targets adds exactly its members, without duplicates |
| `Supervisor.DropDeadExact` | scripts/dev-supervise.lib.ts:189-198 | The drained check removes dead targets up to the first live one, and nothing after it |
| `Supervisor.SeenDeadIsDead` | scripts/dev-supervise.lib.ts:189-197 | Whatever the check removes was a target and was found dead |
| `Supervisor.InvKept` | scripts/dev-supervise.lib.ts:139-210 | Every event keeps the invariant: what the log, the targets and the timers have to do with each other |
| `SupervisorClass.DevSupervisor.constructor` | scripts/dev-supervise.lib.ts:107-137 | The constructor and `start`: every command running, the orphan poll armed |
| `SupervisorClass.DevSupervisor.CollectTargets` | scripts/dev-supervise.lib.ts:175-185 | The targets after every unexited command's tree was added in order |
| `SupervisorClass.DevSupervisor.IsDrained` | scripts/dev-supervise.lib.ts:187-200 | Whether every command has exited and every target is dead; dead targets are removed on the way |
| `SupervisorClass.DevSupervisor.Finish` | scripts/dev-supervise.lib.ts:202-210 | One exit, all timers cleared |
| `SupervisorClass.DevSupervisor.BeginStopping` | scripts/dev-supervise.lib.ts:155-171 | `stop` up to its first drained check |
| `SupervisorClass.DevSupervisor.Stop` | scripts/dev-supervise.lib.ts:155-173 | `stop`, which a second call leaves without effect |
| `SupervisorClass.DevSupervisor.OnSignal` | scripts/dev-supervise.lib.ts:119-120 | A signal stops with its exit code |
| `SupervisorClass.DevSupervisor.OrphanTimerFires` | scripts/dev-supervise.lib.ts:122-126 | A changed parent stops like SIGTERM |
| `SupervisorClass.DevSupervisor.OnChildExit` | scripts/dev-supervise.lib.ts:139-152 | A failure stops the rest with its code, the last clean exit stops with 0 |
| `SupervisorClass.DevSupervisor.GraceTimerFires` | scripts/dev-supervise.lib.ts:163-168 | Collects again, kills and exits |
| `SupervisorClass.DevSupervisor.DrainTimerFires` | scripts/dev-supervise.lib.ts:169-171 | Exits once drained |
| `OwnedExecutor.EveryRunSettlesInTime` | scripts/lib/checkpoint-node-tests.process.ts:73-257 | However the executor goes on: only so much progress can be made before a launched run settles (each later launch adds two steps), and as long as it has not settled a step of progress is possible. It settles no later than its join deadline, at most one termination is attempted, while the identity is held and before `exit`, and an unresolved taskkill makes it cleanup-unknown |
| `OwnedExecutor.DeadlinesSettle` | scripts/lib/checkpoint-node-tests.process.ts:237-257 | Left to itself, the event loop settles every launched run by its deadlines, whichever termination attempts work |
| `OwnedExecutor.JoinSettles` | scripts/lib/checkpoint-node-tests.process.ts:247-253 | An open run at its join deadline has the timer enabled, and its step settles it as cleanup-unknown |
| `OwnedExecutor.NextIsPossible` | scripts/lib/checkpoint-node-tests.process.ts:237-253 | In every reachable state a timer that is due can fire, or else time can pass |
| `OwnedExecutor.ProgressLowers` | scripts/lib/checkpoint-node-tests.process.ts:73-257 | Firing a timer or passing time lowers a measure of the time and timers left; only a launch raises it, by its own two timers |
| `OwnedOutcome.OutcomeExact` | scripts/lib/checkpoint-node-tests.process.ts:98-257 | For every order of events: a run settles only if some event decides it, and as the first such event calls for: a close with code 0 resolves, another close rejects as NODE_EXIT, the deadline as cleanup-unknown, a cancellation with its own code or as cleanup-unknown, exactly as the held PID, the termination and the later events have it; and with exactly the bytes kept |
| `OwnedOutcome.ResolvedExactly` | scripts/lib/checkpoint-node-tests.process.ts:111-123 | A run resolves if and only if it closed with code 0 before anything cancelled it and before its deadline, and then with every byte received |
| `OwnedExecutor.ResolvedRunsAreClean` | scripts/lib/checkpoint-node-tests.process.ts:98-123 | A resolved run was never signalled, closed with code 0, and returned every byte received |
| `OwnedExecutor.LaunchesExactly` | scripts/lib/checkpoint-node-tests.process.ts:46-100 | A call whose signal is aborted, or that comes after some run has ended cleanup-unknown, launches nothing; every other one launches one run more, with both deadlines ahead of it |
| `OwnedExecutor.BlockedExact` | scripts/lib/checkpoint-node-tests.process.ts:46-69 | `blocked` is set exactly if some launched run has ended cleanup-unknown, it stays set, and then nothing is launched |
| `OwnedExecutor.SettledStays` | scripts/lib/checkpoint-node-tests.process.ts:98-131 | After the promise has settled the outcome stands, nothing is attempted and the latch does not change |
| `OwnedExecutor.OpenKept` | scripts/lib/checkpoint-node-tests.process.ts:98-257 | Every event of a run that has not settled keeps its invariant |
| `OwnedExecutor.CancelKeeps` | scripts/lib/checkpoint-node-tests.process.ts:130-178 | A cancellation makes its one attempt, or ends cleanup-unknown where the identity is no longer held |
| `OwnedExecutor.KeepKeeps` | scripts/lib/checkpoint-node-tests.process.ts:200-210 | What is kept of a stream stays within `maxBuffer`, is a prefix of what was received, and all of it if that fits |
| `OwnedExecutor.ExecutorInvKept` | scripts/lib/checkpoint-node-tests.process.ts:46-257 | Every call and event of the executor keeps the invariant of all its runs |
| `OwnedExecutorClass.NodeExecutor.Execute` | scripts/lib/checkpoint-node-tests.process.ts:47-75 | Refuses an aborted signal and a blocked executor, and otherwise launches a run |
| `OwnedExecutorClass.OwnedRun.Finish` | scripts/lib/checkpoint-node-tests.process.ts:98-123 | `finish` changes the fields as `Finish` says, whose outcomes over runs `OwnedOutcome` proves |
| `OwnedExecutorClass.OwnedRun.Unknown` | scripts/lib/checkpoint-node-tests.process.ts:124-129 | `unknown`: latches `blocked` and settles |
| `OwnedExecutorClass.OwnedRun.Cancel` | scripts/lib/checkpoint-node-tests.process.ts:130-178 | `cancel` |
| `OwnedExecutorClass.OwnedRun.TryToTerminate` | scripts/lib/checkpoint-node-tests.process.ts:134-177 | The attempt, or cleanup-unknown |
| `OwnedExecutorClass.OwnedRun.Capture` | scripts/lib/checkpoint-node-tests.process.ts:200-218 | `capture` |
| `OwnedExecutorClass.OwnedRun.Abort` | scripts/lib/checkpoint-node-tests.process.ts:219-227 | `abort`: waits for the spawn |
| `OwnedExecutorClass.OwnedRun.OnSpawn` | scripts/lib/checkpoint-node-tests.process.ts:179-184 | Holds a usable PID, and acts on an abort that came first |
| `OwnedExecutorClass.OwnedRun.OnExit` | scripts/lib/checkpoint-node-tests.process.ts:185-188 | The identity is no longer held |
| `OwnedExecutorClass.OwnedRun.OnError` | scripts/lib/checkpoint-node-tests.process.ts:189-195 | Cancels a child that runs, and otherwise rejects |
| `OwnedExecutorClass.OwnedRun.OnClose` | scripts/lib/checkpoint-node-tests.process.ts:196-199 | Finishes with the code, unless a taskkill is unresolved |
| `OwnedExecutorClass.OwnedRun.OnStreamError` | scripts/lib/checkpoint-node-tests.process.ts:231-236 | A broken stream cancels |
| `OwnedExecutorClass.OwnedRun.OnCallerAborts` | scripts/lib/checkpoint-node-tests.process.ts:228-228 | The caller's abort cancels |
| `OwnedExecutorClass.OwnedRun.CancelTimerFires` | scripts/lib/checkpoint-node-tests.process.ts:237-246 | The first deadline cancels |
| `OwnedExecutorClass.OwnedRun.JoinTimerFires` | scripts/lib/checkpoint-node-tests.process.ts:247-253 | The second deadline ends cleanup-unknown |
| `OwnedExecutorClass.OwnedRun.OnTaskkillResult` | scripts/lib/checkpoint-node-tests.process.ts:150-160 | A confirmed taskkill finishes a closed child; any other ends cleanup-unknown |
| `WindowsCleanup.TreeCleanup.constructor` | scripts/lib/checkpoint-node-tests.windows.ts:38-63 | A helper runs only for a PID that is owned before the deadline; otherwise the result is false at once |
| `WindowsCleanup.TreeCleanup.Dispose` | scripts/lib/checkpoint-node-tests.windows.ts:20-37 | One result, false; a helper is killed exactly if neither its exit code nor its signal is set, and only once |
| `WindowsCleanup.TreeCleanup.OnHelperExit` | scripts/lib/checkpoint-node-tests.windows.ts:27-27 | A helper may have exited and not yet closed |
| `WindowsCleanup.TreeCleanup.OnHelperError` | scripts/lib/checkpoint-node-tests.windows.ts:64-64 | An error settles the cleanup |
| `WindowsCleanup.TreeCleanup.OnHelperClose` | scripts/lib/checkpoint-node-tests.windows.ts:65-71 | The result is true exactly for a clean close before the deadline |
| `WindowsCleanup.TreeCleanup.TimerFires` | scripts/lib/checkpoint-node-tests.windows.ts:73-73 | At the deadline the result is false |
| `BakeryLock.MutualExclusion` | packages/shared/src/DevPortCoordinator.ts:55-121 | In every run, whatever the interleaving, deaths, give-ups and stale listings, also where new processes get the PIDs of dead ones, at most one live acquisition runs its action |
| `BakeryLock.FirstComeFirstServed` | packages/shared/src/DevPortCoordinator.ts:89-113 | Once an acquisition has its ticket, one that starts later cannot run its action until the first has left, given up or died |
| `BakeryLock.NoDeadlock` | packages/shared/src/DevPortCoordinator.ts:94-113 | When every live acquisition waits, the first in line has every read of a slot enabled, which moves it past that slot unless the slot is a dead process's whose PID was given away (`HoldsUp`), exactly; with no slot left to read its entry is enabled |
| `BakeryLock.UnhinderedEnters` | packages/shared/src/DevPortCoordinator.ts:94-116 | An acquisition that no slot holds up has a run in which it reads the rest and enters |
| `BakeryLock.SomeoneCanEnter` | packages/shared/src/DevPortCoordinator.ts:94-116 | Where all wait and there is no such stale slot, the first in line can go on to run its action while nobody else moves |
| `BakeryLock.EveryoneGetsItsTurn` | packages/shared/src/DevPortCoordinator.ts:55-121 | From every reachable state without a stale slot, each active acquisition that has a ticket, or for which one is left, gets to run its action by the steps of the acquisitions present alone: those choosing take their tickets, those running leave, and turns go round |
| `BakeryLock.HeldUpStays` | packages/shared/src/DevPortCoordinator.ts:94-113 | A stale slot that holds an acquisition up keeps it waiting until it gives up or dies, as long as the new process with that PID lives |
| `BakeryLock.InvKept` | packages/shared/src/DevPortCoordinator.ts:77-113 | Every step keeps the invariant that whoever is passed has a later place |
| `BakeryLock.OverIsOver` | packages/shared/src/DevPortCoordinator.ts:116-121 | An acquisition that has left, given up or died never comes back |
| `BakeryLock.TicketIsNext` | packages/shared/src/DevPortCoordinator.ts:77-88 | A ticket is one more than the largest that the slots read for it have shown, and there is one exactly if that is a safe integer |
| `BakeryLock.SlotGoes` | packages/shared/src/DevPortCoordinator.ts:41-50 | A slot goes exactly when a reader sees its owner dead, or when its own acquisition unlinks it after it is over |
| `BakeryLock.GoneSlotStays` | packages/shared/src/DevPortCoordinator.ts:41-121 | A slot that has gone does not come back |
| `PortReservations.LivePortsAreDisjoint` | packages/shared/src/DevPortCoordinator.ts:271-315 | In every interleaving of runner, web and mobile launchers, deaths between check and publication among them, any two reservations on disk, their owners alive or not, share a port only within one web family: a parent and its child, or children of one parent in one process |
| `PortReservations.FilesExact` | packages/shared/src/DevPortCoordinator.ts:231-315 | In every run a reservation is on disk exactly if it was checked and then published, and has been neither released nor removed as a dead owner's since |
| `PortReservations.LockRuns` | packages/shared/src/DevPortCoordinator.ts:127-150 | The lock in a run of the whole runs as the lock alone does |
| `PortReservations.AdmittedIsPublished` | packages/shared/src/DevPortCoordinator.ts:271-315 | Whoever has read the directory can publish a reservation of its own exactly if what it has read admits it |
| `PortReservations.AdmitsExactly` | packages/shared/src/DevPortCoordinator.ts:271-302 | Admitted is exactly a valid port, beside a live parent of that port if one is named, and beside nothing else but its family |
| `PortReservations.AttachmentExact` | packages/shared/src/DevPortCoordinator.ts:283-302 | A child can attach to a live parent if and only if every other child of it belongs to the same process |
| `PortReservations.OneProcessMayAttachTwice` | apps/web/dev.ports.ts:24-26 | A second live child is not always rejected |
| `PortReservations.StrictSharingExact` | packages/shared/src/DevPortCoordinator.ts:295-302 | Sharing is always between a parent and its child exactly as long as nobody has attached twice |
| `PortReservations.InvKept` | packages/shared/src/DevPortCoordinator.ts:231-315 | Every step of the lock and the directory, checking and publishing apart, keeps the invariant |
| `PortReservations.SharedIsFamily` | packages/shared/src/DevPortCoordinator.ts:283-302 | What a checked reservation shares its port with, when it is published, is of its family |
| `PortReservations.DevPortDirectory.ReadDevPortReservations` | packages/shared/src/DevPortCoordinator.ts:231-268 | Removes exactly dead owners' files and returns the rest |
| `PortReservations.DevPortDirectory.ReserveDevPort` | packages/shared/src/DevPortCoordinator.ts:271-315 | Publishes exactly when the port is valid, the parent live and nobody in the way |
| `PortReservations.DevPortDirectory.ReserveWebDevPort` | apps/web/dev.ports.ts:10-37 | With a parent, its port or nothing; without one, the lowest port that is neither reserved nor in use |
| `RunnerPorts.CleanupLeavesNothing` | scripts/dev-runner.coordination.ts:32-42 | Wherever an interruption falls, once the finalizer is done the runner has no reservation left and does not hold the lock, then and for ever |
| `RunnerPorts.LeaseIsKept` | scripts/dev-runner.coordination.ts:66-82 | A run that got its ports keeps them reserved until the finalizer releases them; a dry run, or one without a web listener, reserves none |
| `RunnerPorts.CleanupGoesOn` | scripts/dev-runner.coordination.ts:32-42 | Once the finalizer has begun it comes to its end: whatever is awaited and however it comes out, some step is possible until then, and there are only so many |
| `RunnerPorts.InterruptStops` | scripts/dev-runner.coordination.ts:43-76 | An interruption before the reservation is asked for is in time: nothing is reserved, then or later, and the acquisition fails |
| `RunnerPorts.JoiningIsNeeded` | scripts/dev-runner.coordination.ts:37-40 | There are runs in which the finalizer begins after publication and before `lease` is assigned |
| `RunnerPorts.InvKept` | scripts/dev-runner.coordination.ts:25-98 | Every step keeps the invariant |
| `RunnerPorts.Acquisition.GoOn` | scripts/dev-runner.coordination.ts:43-91 | The acquisition from one await to the next, as `Step` says |
| `RunnerPorts.Acquisition.CleanUp` | scripts/dev-runner.coordination.ts:35-45 | Interruption and finalizer: abort, join, release |
| `MobilePlugin.GenerationsCountReferences` | apps/mobile-web/dev.coordination.ts:20-51 | In every interleaving `generations` is the number of registered servers that have not finished closing; a lease is held only while it is positive; only the lease and reservations being released exist |
| `MobilePlugin.LeaseGivenUpExactly` | apps/mobile-web/dev.coordination.ts:46-50 | A lease is given up exactly by the step that brings the count to zero, and replaced only while the old and the new reservation are both held |
| `MobilePlugin.PreviousIsStillLease` | apps/mobile-web/dev.coordination.ts:83-87 | The lease taken down before a reservation is awaited is still the lease when the wait is over |
| `MobilePlugin.BindsUnderLease` | apps/mobile-web/dev.coordination.ts:83-92 | A server binds the leased port, under the lock, while the lease is held and its close has not got past joining |
| `MobilePlugin.ActsOnFreePort` | apps/mobile-web/dev.coordination.ts:62-91 | Whenever a server is about to publish a reservation or to bind, its last check found that port, a valid one, free, and it has held the lock ever since |
| `MobilePlugin.CheckDecides` | apps/mobile-web/dev.coordination.ts:62-87 | A port that is not valid or not free leaves the lock with nothing reserved; a free one is bound at once if it is leased and reserved otherwise, unless the server was closed |
| `MobilePlugin.ListenSucceeds` | apps/mobile-web/dev.coordination.ts:56-101 | An open server can bind every valid port that is free and nobody's: a run of its own ends with the lock free and the lease of that port, published for as long as it is held, and the old reservation gone |
| `MobilePlugin.ListenRefused` | apps/mobile-web/dev.coordination.ts:56-59 | A server that is closed or already listening is not set to listen again |
| `MobilePlugin.ClosedLeavesLock` | apps/mobile-web/dev.coordination.ts:59-61 | A server closed while it waited leaves the lock at once; an open one checks its port |
| `MobilePlugin.CloseSucceeds` | apps/mobile-web/dev.coordination.ts:35-52 | A server that is not listening can close by steps of its own: it gives its reference back, and with the last one the lease and its reservation |
| `MobilePlugin.HookTakesReference` | apps/mobile-web/dev.coordination.ts:103-108 | The hook of an open server takes one reference, that of a closed one none |
| `MobilePlugin.NewServerCounts` | apps/mobile-web/dev.coordination.ts:26-32 | A server is created open, and its hook takes the one reference it adds |
| `MobilePlugin.AbortedListenIsJoined` | apps/mobile-web/dev.coordination.ts:35-42 | A close of a server that is still queueing for the lock joins its listen as soon as the abort is heard |
| `MobilePlugin.OtherKeepsOut` | apps/mobile-web/dev.coordination.ts:59-60 | While another process has the lock no server is in the critical section or can enter it; once it is dropped whoever queues can |
| `MobilePlugin.NoBindAfterSettledClose` | apps/mobile-web/dev.coordination.ts:35-59 | Once a close has settled no listen of that server is under way or begins again |
| `MobilePlugin.InvKept` | apps/mobile-web/dev.coordination.ts:20-108 | Every step of every server keeps the invariant |
| `MobilePluginClass.WrappedServer.PostHook` | apps/mobile-web/dev.coordination.ts:103-108 | A server that is not closed takes a reference |
| `MobilePluginClass.WrappedServer.Listen` | apps/mobile-web/dev.coordination.ts:56-59 | Queues for the lock, unless closed or already listening |
| `MobilePluginClass.WrappedServer.OnLockGranted` | apps/mobile-web/dev.coordination.ts:59-61 | A closed server leaves at once |
| `MobilePluginClass.WrappedServer.OnLockGivenUp` | apps/mobile-web/dev.coordination.ts:60-101 | A listen that is aborted or gets no lock in its 30 s is over |
| `MobilePluginClass.WrappedServer.AfterCheck` | apps/mobile-web/dev.coordination.ts:62-84 | Refuses an invalid or unavailable port; keeps the lease if it is for this port |
| `MobilePluginClass.WrappedServer.AfterReserve` | apps/mobile-web/dev.coordination.ts:85-86 | The new reservation becomes the lease; the lease from before the wait is what is released |
| `MobilePluginClass.WrappedServer.AfterOldReleased` | apps/mobile-web/dev.coordination.ts:87-87 | before the old one is released |
| `MobilePluginClass.WrappedServer.AfterBind` | apps/mobile-web/dev.coordination.ts:91-91 | The bind ends |
| `MobilePluginClass.WrappedServer.AfterPublish` | apps/mobile-web/dev.coordination.ts:92-98 | The lock is left |
| `MobilePluginClass.WrappedServer.Close` | apps/mobile-web/dev.coordination.ts:35-42 | The first close marks the server closed and joins the listen in flight |
| `MobilePluginClass.WrappedServer.AfterJoin` | apps/mobile-web/dev.coordination.ts:42-44 | The listen in flight has settled; the server itself closes |
| `MobilePluginClass.WrappedServer.AfterServerClose` | apps/mobile-web/dev.coordination.ts:43-49 | Gives the reference back, and with the last one the lease |
| `MobilePluginClass.WrappedServer.AfterRelease` | apps/mobile-web/dev.coordination.ts:49-49 | The lease's reservation is removed |
| `ZipArchive.ZipArchive` | scripts/cua-cursor-theme/dotLottie.ts:70-87 | Fails exactly if some header field would overflow; otherwise the archive is the local entries, the central directory and the end record, in order and without a gap, and the reader recovers the files from it |
| `ZipArchive.UnzipZip` | scripts/cua-cursor-theme/dotLottie.ts:70-87 | A reader that follows sections 4.3.7, 4.3.12 and 4.3.16 of the PKWARE APPNOTE recovers exactly the names and data, in order |
| `ZipArchive.EntryInPlace` | scripts/cua-cursor-theme/dotLottie.ts:71-86 | Every local entry stands at the offset its central header records, every central header where those before it end |
| `ZipArchive.ArchiveDeterminesFiles` | scripts/cua-cursor-theme/dotLottie.ts:70-87 | Different lists of files never make the same archive |
| `ZipArchive.LocalHeader` | scripts/cua-cursor-theme/dotLottie.ts:24-38 | The 30 header bytes hold the fields of section 4.3.7, followed by the name |
| `ZipArchive.CentralHeader` | scripts/cua-cursor-theme/dotLottie.ts:40-57 | The 46 header bytes hold the fields of section 4.3.12, unwritten ones zero, followed by the name |
| `ZipArchive.EndOfCentralDirectory` | scripts/cua-cursor-theme/dotLottie.ts:59-67 | The 22 bytes hold the fields of section 4.3.16 |
| `ZipArchive.Locals` | scripts/cua-cursor-theme/dotLottie.ts:71-80 | One local entry a file, at the sum of the lengths before it |
| `ZipArchive.Centrals` | scripts/cua-cursor-theme/dotLottie.ts:81-81 | One central header an entry, unless an offset overflows |
| `ZipArchive.ReadsEntry` | scripts/cua-cursor-theme/dotLottie.ts:70-87 | The reader finds the i-th central header and through it exactly the i-th file |
| `Wire.WriteVarint` | scripts/lib/workspace-agent-handshake.ts:133-143 | The loop writes the base 128 form of the value |
| `Wire.VarintIsGroup` | scripts/lib/workspace-agent-handshake.ts:133-143 | What is written is one group, continued in every byte but the last, with exactly the value |
| `Wire.ReadVarintLoop` | scripts/lib/system-monitor-smoke.ts:14-25 | The loop returns what `ReadVarint` says, and throws where it says none |
| `Wire.ReadsExactly` | scripts/lib/system-monitor-smoke.ts:14-25 | For all bytes: the reader returns exactly the value and end of a group of at most ten bytes whose value is a safe integer, and throws on everything else |
| `Wire.VarintRoundTrip` | scripts/lib/system-monitor-smoke.ts:14-25 | Reading recovers every safe non-negative integer that was written, wherever it stands, and throws for every other |
| `Wire.ReadFieldStep` | scripts/lib/system-monitor-smoke.ts:36-50 | One field, or the error |
| `Wire.ReadHelloAck` | scripts/lib/system-monitor-smoke.ts:27-53 | The loop returns what `HelloAckFields` says |
| `Wire.ReadsEncoded` | scripts/lib/system-monitor-smoke.ts:36-50 | Reading a field undoes writing it, exactly if its numbers are safe and it can be added |
| `Wire.HelloAckRoundTrip` | scripts/lib/system-monitor-smoke.ts:27-53 | For every list of fields: what is read back is the fields added one after the other, or an error exactly if some number is not safe or they do not add up |
| `Wire.HelloAckDecodes` | scripts/lib/system-monitor-smoke.ts:27-53 | What is read back holds the last value of each field and all texts of field 6 in order; it is an error exactly if a number is not safe, a text is not UTF-8, or a text of field 6 follows a number of field 6 |
| `Wire.HelloAckRefuses` | scripts/lib/system-monitor-smoke.ts:27-33 | A message of another kind, or with another length than it says, is refused |
| `Wire.AddAllMeaning` | scripts/lib/system-monitor-smoke.ts:35-51 | What adding fields one after the other amounts to |
| `Wire.TextKeptExactly` | scripts/lib/system-monitor-smoke.ts:34-48 | A text comes back as it was exactly if it does not start with a byte order mark |
| `FramedReader.Reader.OnData` | scripts/lib/workspace-agent-handshake.ts:238-248 | Whatever the chunks and the calls so far, the n-th call has the n-th frame of the stream, and frames wait only if no call does |
| `FramedReader.Reader.Read` | scripts/lib/workspace-agent-handshake.ts:249-261 | A call gets the next frame at once if there is one, and otherwise waits for its own |
| `FramedReader.Reader.OnTimeout` | scripts/lib/workspace-agent-handshake.ts:256-256 | A call that times out leaves its frame to nobody; all others still get theirs |
| `FramedReader.Reader.Deliver` | scripts/lib/workspace-agent-handshake.ts:244-246 | A frame goes to the call that waits longest, or is kept |
| `FramedReader.Reader.constructor` | scripts/lib/workspace-agent-handshake.ts:235-237 | Nothing buffered, nobody waiting |
| `FramedReader.FramesAppend` | scripts/lib/workspace-agent-handshake.ts:238-247 | More bytes only add frames, so chunk boundaries do not matter |
| `FramedReader.RestHasNoFrame` | scripts/lib/workspace-agent-handshake.ts:240-240 | What stays buffered holds no whole frame |
| `FramedReader.FramesOfWritten` | scripts/lib/workspace-agent-handshake.ts:227-232 | Frames that were written come back unchanged and in order, also before an unfinished one |
| `FramedReader.CleanupFrameRoundTrip` | scripts/lib/workspace-agent-handshake.ts:227-232 | The one frame `cleanupFrame` writes holds exactly its field and payload |
| `CleanupDigests.PageBytesInjective` | scripts/lib/workspace-agent-handshake.ts:196-204 | Two pages whose hashed bytes are equal are the same in every field |
| `CleanupDigests.AuthorizationBytesInjective` | scripts/lib/workspace-agent-handshake.ts:216-224 | So are two authorizations with digests of equal lengths |
| `CleanupDigests.DigestLengthsMatter` | scripts/lib/workspace-agent-handshake.ts:219-219 | With digests of varying lengths that fails |
| `CleanupDigests.TagsSeparate` | scripts/lib/workspace-agent-handshake.ts:196-216 | A page and an authorization never hash the same bytes |
| `CleanupReading.ReadsPage` | scripts/lib/workspace-agent-handshake.ts:196-204 | A page is read back from its hashed bytes, every field from its own place |
| `CleanupReading.ReadsAuthorization` | scripts/lib/workspace-agent-handshake.ts:216-224 | So is an authorization, by a reader that knows the lengths of the digests |
| `CleanupDigests.CleanupPageDigest` | scripts/lib/workspace-agent-handshake.ts:187-205 | Hashes the bytes of the page, and throws exactly if a text is 2^32 bytes or longer |
| `CleanupDigests.CleanupAuthorization` | scripts/lib/workspace-agent-handshake.ts:207-225 | Hashes the bytes of the authorization, and throws exactly if a text or the deadline is out of range |
| `CleanupDigests.Hash.DigestString` | scripts/lib/workspace-agent-handshake.ts:169-174 | Feeds the length in four bytes, then the text |
| `CleanupDigests.Hash.DigestIdentity` | scripts/lib/workspace-agent-handshake.ts:176-185 | Feeds a presence byte, and then device, inode and type |
| `Manifest.ParseSerialize` | scripts/merge-mac-update-manifests.ts:245-265 | Reading what was printed gives the manifest back if and only if it is printable: single-line texts, extras with ordinary keys, a version that reads as a plain string, urls and hashes that are trimmed and not in quotes, and no number, extra or file size, that is printed with an exponent |
| `Manifest.Serialize` | scripts/merge-mac-update-manifests.ts:245-265 | The printed text has its extras in increasing order, and reads back exactly if the manifest is printable |
| `Manifest.ParseManifest` | scripts/merge-mac-update-manifests.ts:70-183 | The loop returns what `Parse` says |
| `Manifest.ParseKeepsEveryEntry` | scripts/merge-mac-update-manifests.ts:79-165 | Whatever else a text holds, a manifest read from it has exactly one file for each line that names a URL, in order |
| `Manifest.ParsedIsReadable` | scripts/merge-mac-update-manifests.ts:70-183 | What every manifest that was read is like |
| `Manifest.LinesRead` | scripts/merge-mac-update-manifests.ts:70-183 | How a printed manifest is read whatever its unquoted fields look like: which fields change, and when it is refused |
| `Manifest.QuotedVersionIsLost` | scripts/merge-mac-update-manifests.ts:246-246 | A version that only quotes keep a plain string can be read, but does not survive printing |
| `Manifest.LargeSizeIsLost` | scripts/merge-mac-update-manifests.ts:101-111 | A size of 10^21 or more can be read as digits, but is printed with an exponent, and the printed manifest is refused for an incomplete file entry |
| `Manifest.PrintedSizeLine` | scripts/merge-mac-update-manifests.ts:249-251 | A printed size line sets the size of the entry exactly below 10^21, and from there on ends the entry as incomplete |
| `Numbers.WholeForm` | scripts/merge-mac-update-manifests.ts:251-251 | A whole number is printed as its digits exactly below 10^21 |
| `Manifest.ScalarRoundTrip` | scripts/merge-mac-update-manifests.ts:57-68 | Every scalar comes back as printed, strings of any shape among them, exactly unless it is a number printed with an exponent |
| `Numbers.ReadByValue` | scripts/merge-mac-update-manifests.ts:64-66 | Two texts are read as the same number exactly if they name equal ones, so `1.0` and `1` do not conflict in a merge |
| `Numbers.PrintIsRead` | scripts/merge-mac-update-manifests.ts:238-243 | A number comes back from print exactly if it is printed without an exponent, that is, 0 or from 0.000001 up to below 10^21 in magnitude |
| `Numbers.PlainInRange` | scripts/merge-mac-update-manifests.ts:242-242 | Printed without an exponent are, apart from 0, exactly the numbers of 0.000001 and more and below 10^21 in magnitude |
| `Numbers.WithoutZerosExact` | scripts/merge-mac-update-manifests.ts:242-242 | The digits before an exponent are those of the number without the zeros at its end |
| `Numbers.PlainFormIsRead` | scripts/merge-mac-update-manifests.ts:64-66 | The decimal form without exponent is read back as the same number |
| `Manifest.PlainExactly` | scripts/merge-mac-update-manifests.ts:26-31 | An unquoted url or hash stays as it is exactly if it is trimmed, not empty and not in quotes |
| `Manifest.PlainVersionExactly` | scripts/merge-mac-update-manifests.ts:57-68 | An unquoted version stays a string exactly if it is trimmed, not empty, and not quoted, a boolean or a number |
| `Manifest.FilesRead` | scripts/merge-mac-update-manifests.ts:84-113 | The three lines of each file make its entry, or an error if a field is blank or the size is printed with an exponent |
| `Manifest.ExtrasRead` | scripts/merge-mac-update-manifests.ts:127-161 | The lines of the extras make exactly what their printed values read as |
| `Manifest.TopLine` | scripts/merge-mac-update-manifests.ts:120-161 | A top-level line ends the file entry before it and sets its key |
| `Text.UnquoteQuote` | scripts/merge-mac-update-manifests.ts:234-236 | Doubling quotes inside quotes is undone (section 7.3.2 of YAML 1.2.2) |
| `Text.SplitJoin` | scripts/merge-mac-update-manifests.ts:264-264 | Splitting into lines undoes joining them |
| `Text.DecimalRoundTrip` | scripts/merge-mac-update-manifests.ts:251-251 | The decimal form of a number has its value |
| `ManifestMerge.MergeManifests` | scripts/merge-mac-update-manifests.ts:204-232 | The merge is what `Merge` says, errors included |
| `ManifestMerge.MergeFiles` | scripts/merge-mac-update-manifests.ts:214-229 | The map loop keeps every file once, where it first stands, and fails exactly if two entries for one URL differ |
| `ManifestMerge.MergeExtrasLoop` | scripts/merge-mac-update-manifests.ts:185-202 | The union of the extras, failing exactly on a key with two different values |
| `ManifestMerge.MergeKeeps` | scripts/merge-mac-update-manifests.ts:204-232 | No file is lost or invented, no URL appears twice, the date is the later one, and no extra changes |
| `ManifestMerge.MergeCommutes` | scripts/merge-mac-update-manifests.ts:204-232 | Swapping the manifests changes nothing but the order of files |
| `ManifestMerge.MergeAssociates` | scripts/merge-mac-update-manifests.ts:204-232 | Three manifests merge into the same one, file order included, or fail, either way round |
| `ManifestMerge.MergeLeftIs` | scripts/merge-mac-update-manifests.ts:204-232 | Merging three succeeds exactly if all their entries agree |
| `ManifestMerge.LaterAssociates` | scripts/merge-mac-update-manifests.ts:227-228 | The later of three dates does not depend on the grouping |
| `ManifestMerge.MergeKeepsPrintable` | scripts/merge-mac-update-manifests.ts:279-282 | The merge of two printable manifests can be printed and read back |
| `Ordering.Sorted` | scripts/merge-mac-update-manifests.ts:254-254 | All names, each once, in increasing order |
| `Ordering.BeforeExactly` | scripts/merge-mac-update-manifests.ts:227-254 | The order is by the first character in which two strings differ, a prefix first |
| `SchemaClosure.Collect` | apps/server/scripts/generateThreadToolNativeApiFixture.ts:49-52 | Succeeds exactly if every reachable reference is to a schema, every reachable schema exists and there are at most 390; then it collects exactly the reachable names |
| `SchemaClosure.Generate` | apps/server/scripts/generateThreadToolNativeApiFixture.ts:40-56 | Fails exactly as the closure does, or with more than 400 records; otherwise the fixture holds the operations and the reachable schemas in order |
| `SchemaClosure.FixtureHasAllSchemas` | apps/server/scripts/generateThreadToolNativeApiFixture.ts:53-55 | Every reference in an emitted record has its own schema record |
| `SchemaClosure.Collector.Visit` | apps/server/scripts/generateThreadToolNativeApiFixture.ts:20-39 | Ends on cyclic schemas; collects only reachable names, and all that the value and the newly collected schemas refer to; on an error there is a reachable reason |
| `SchemaClosure.Collector.VisitRef` | apps/server/scripts/generateThreadToolNativeApiFixture.ts:27-37 | One reference: followed once, refused if it is external, missing or over the bound |
| `SchemaClosure.CollectedIsReachable` | apps/server/scripts/generateThreadToolNativeApiFixture.ts:31-35 | A collected set that is closed under references is exactly what is reachable |
| `SchemaClosure.RefsExactly` | apps/server/scripts/generateThreadToolNativeApiFixture.ts:20-28 | The references of a value are the `$ref` strings of the objects anywhere in it |
| `SchemaClosure.NoSchemaExactly` | apps/server/scripts/generateThreadToolNativeApiFixture.ts:31-32 | No schema is a name without a value, or with null, false, 0 or the empty text |
| `SchemaClosure.UnescapeEscape` | apps/server/scripts/generateThreadToolNativeApiFixture.ts:30-30 | Unescaping inverts the escaping of section 4 of RFC 6901 for every name |
| `SchemaClosure.NameOfRefTo` | apps/server/scripts/generateThreadToolNativeApiFixture.ts:28-30 | The name read from a written reference is the name it was written for |
| `SleepClock.DetectSleepWindow` | scripts/lib/sleep-wake-probe.clock.ts:39-65 | None exactly if no gap reaches 15 s; otherwise the first longest of the maximal groups of gaps with under 60 s awake between them |
| `SleepClock.GapEndIndexes` | scripts/lib/sleep-wake-probe.clock.ts:22-30 | The loop finds the gap ends `Gaps` lists, and none exactly if there is no gap of 15 s |
| `SleepClock.GapsExact` | scripts/lib/sleep-wake-probe.clock.ts:22-30 | These are exactly the ends of gaps of at least 15 s, in increasing order |
| `SleepClock.GroupGaps` | scripts/lib/sleep-wake-probe.clock.ts:42-50 | The gaps, split exactly where 60 s or more were spent awake |
| `SleepClock.GroupIsSleep` | scripts/lib/sleep-wake-probe.clock.ts:42-50 | Every group is a maximal one |
| `SleepClock.SleepIsGroup` | scripts/lib/sleep-wake-probe.clock.ts:42-50 | Every maximal group is among them |
| `SleepClock.LongestGroup` | scripts/lib/sleep-wake-probe.clock.ts:51-64 | The first of the longest windows |
| `SleepClock.DetectedIsWindow` | scripts/lib/sleep-wake-probe.clock.ts:55-61 | A detected window spans readings between gaps: its times and gaps are what the two clocks show there, a monotonic clock that ran back taken for one that stood still, with one dark wake between each two of its gaps; it is at least 15 s long where wall time never runs back |
| `SleepClock.OffsetRecovered` | scripts/lib/sleep-wake-probe.clock.ts:97-113 | From readings of a trace clock that is off by an offset and advances by the monotonic gap across the sleep, the offset comes back with zero error, exactly unless that gap is longer than the sleep; what comes back then |
| `SleepClock.OffsetExists` | scripts/lib/sleep-wake-probe.clock.ts:103-108 | There is an offset exactly if there is a reading before or after the sleep |
| `SleepClock.ToWallIncreases` | scripts/lib/sleep-wake-probe.clock.ts:114-116 | `toWall` is strictly increasing, whatever the readings |
| `SleepClock.ToWallInverts` | scripts/lib/sleep-wake-probe.clock.ts:113-116 | It inverts that trace clock up to the sleep and after it; at the moment of waking exactly if the clock moved during the sleep; after a gap longer than the sleep exactly on the side that the readings are from |
| `SleepClock.LastPreIsLast` | scripts/lib/sleep-wake-probe.clock.ts:98-101 | The reading used is the last one before the sleep |
| `SleepClock.FirstPostIsFirst` | scripts/lib/sleep-wake-probe.clock.ts:100-102 | The reading compared with is the first one after it |

## Left out

- Real process spawning, `ps`, `taskkill`, sockets, files, and the parsing of process listings: they are events or parameters.
- `Launcher` takes the outcome of each look from the environment; `TerminationTrace` ties it to the looks of `AppTermination` and `LauncherProcesses`. That an app's snapshot is refreshed by the poll is only in `AppTermination`.
- The launcher on Windows beyond one tree kill and a wait.
- Log lines, and the wording and line numbers of errors: an error is a constructor.
- `parseDevCommands` and `shellQuote`: single-branch facts.
- How the runner chooses its port offset; in `RunnerPorts` the choice is an event.
- `dotLottieArchive` and JSON encoding: a fixed list of names around `zipArchive`.
- `Wire.WriteVarint`: negative numbers, which no caller writes.
- `Numbers.ReadByValue`: numbers are exact decimals, so the rounding to a double, of file sizes too, is not modelled.
- Strings are sequences of Unicode scalar values, so keys and dates are compared by these and not by UTF-16 code units, which differs only beyond the basic plane.
- Property names that JavaScript objects inherit: extras and schemas are plain maps, and a JSON object holds each key once.
- `CleanupDigests.AuthorizationBytesInjective`: nothing about the hash function, only about the bytes it is fed.
- `FramedReader.Reader.OnTimeout`: when it happens (5 s after the call) is not modelled.
- The supervisor binary, Electron bootstrap, Effect layers, React screens and the sleep probe's report and classifier.

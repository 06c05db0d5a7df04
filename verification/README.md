# MiniShell: a verified model

MiniShell is a job-control shell with a small device runtime. This project models the parts of it
in which something can go wrong between two lines of code, and proves what they promise:

- **Starting and tracking jobs** (`Kernel`, `Jobs`, `JobControl`, `Gate`, `Descriptors`, `Terminal`,
  `System`, `Executor`, `Builtins`, `Reaper`, `Shell`). The parent forks up to 64 children, holds them at a token pipe
  (the startup gate), registers the job, hands over the terminal and releases them; every system call
  may fail and every failure is rolled back. The job table then follows the kernel through whatever
  wait reports arrive.
- **Signals through the self-pipe** (`SelfPipe`, `EventLoop`). A handler and the select loop interleave
  freely, and with them the children and the job table.
- **The UART protocol, both ends** (`Numbers`, `UartDevice`, `UartHost`, `UartEndToEnd`).
- **The command parser** (`Parser`, `ParserTokens`, `ParserMeaning`, `ParserErrors`, `ParserRoundTrip`): what
  the tokens of a line are, what they mean and why they are refused, said without the loops, and a printer.
- **Devices** (`DeviceConfig`, `DeviceConfigOrder`, `DeviceConfigPrint`, `DeviceConfigLoad`,
  `DeviceConfigMeaning`, `DeviceLife`, `DeviceManager`): the configuration file, the life of one device, and the
  all-or-nothing reload with exact ownership of backend contexts.
- **OLED text** (`Utf8`, `Oled`, `OledText`): UTF-8 as in section 4 of RFC 3629, the bit-packed framebuffer and
  the wrapping layout.

`Options`, `Errno` and `CType` hold the option type, the error numbers and the character classes the rest
shares.

## How the outside world appears

System calls are inputs or nondeterministic choices. Calls of the shell that may fail go through class
`System.Os`, which keeps ghost records of what failed, whom the shell killed, what each poll answered and
how often waitpid returned; `Terminal.Tty` records what happened at the terminal and what it refused. The
contracts tie every outcome to these records, so an error is reported only if a call failed. Elsewhere a
script (a sequence of `waitpid` returns, of polls, of UART turns) stands for what successive calls gave;
`nat -> bool` stands for which allocations fail. The kernel is a map from process ids to Running, Stopped,
Zombie or Reaped, each with at most one unread report; children move at any moment (`Evolves`).
Concurrency (the gate, the self-pipe) is a state machine over single steps, and the theorems quantify over
all runs. Where the C code loops or updates objects in place, the model is a method with a loop, or a
class, proved against a function on values; the theorems are then about that function.

One module per file, named alike.

## What was found

- A device in error leaves quarantine when its backend's close returns a positive value
  (`src/device.c:207-215`), and a later read can then reach the failed backend:
  `DeviceLife.PositiveCloseDeceives` shows it, and `DeviceLife.ProtocolKeptExactly` states exactly which
  call sequences break the protocol. The backends of `src/device_backend.c` never return a positive value
  from close (`DeviceLife.NoWrongCall`).
- A failed `open` puts a closed device in error too, but the next `open` is allowed
  (`DeviceLife.FailedOpenMayBeRepeated`), so the promise "nothing after a fatal failure until a close"
  concerns failures of an opened device.
- Destroying a device closes its backend once more, even if it is closed already
  (`src/device_backend.c:31-34`): `DeviceManager.DestroyDevice` shows the call, and
  `DeviceManager.HookClosesAgain` that the backend then sees a close it should not.
- Text on the display that starts right of column 112 can be clipped, unless it starts so low that it
  cannot wrap; `Oled.FitsExactlyWhen` is the exact condition.
- Pipelines rely on the startup gate keeping descriptors 0 and 1 busy while stage pipes are made: a
  read end on descriptor 1 would lose stdout (`Descriptors.ReadEndOnStdoutLosesIt`). The gate is
  always open then, so `Executor.ExecutePipeline` can promise the wiring even for a shell started with
  closed standard descriptors.
- `fg` resumes a job under the modes of its last stop if reading them succeeded then; after a failed read
  (`src/executor.c:265-266`) it uses those of an earlier stop, or the shell's if there are none. All cases
  are in `Builtins.Fg`; `Terminal.UnreadModesAreLost` is an example, and `Terminal.ResumedAsStopped` says
  exactly when the modes are those of the last stop.
- A wakeup can be dropped in exactly one way: `sigprocmask` fails (`src/sig.c:104-105`) while a bit is
  pending whose byte was drained. `SelfPipe.MissedWake` shows it, `SelfPipe.WakesExactlyWhen` that there is
  no other.
- A waitpid of `job_reap` that is interrupted is not repeated (`src/job.c:446-452`), so the shell can go to
  sleep with a report unread: `EventLoop.InterruptedPollIsStale` shows it, and
  `EventLoop.AnnouncedExactlyWhen` says exactly which steps have that effect.

## Model

| member | source | states |
|---|---|---|
| `Jobs.FindProcess` | src/job.c:26-40 | the first member with the pid, or none |
| `Jobs.Find` | src/job.c:26-40 | the list walk finds exactly that member |
| `Jobs.Updated` | src/job.c:42-63 | one pass computes RUNNING if any member runs, else STOPPED if any is stopped, else DONE; an empty job keeps its status |
| `Jobs.ApplyReturnKeeps` | src/job.c:65-79 | applying a report keeps the job's status equal to the aggregate of its members and keeps members, group, id and modes |
| `Jobs.WaitOn` | src/job.c:391-411 | the loop over any script of waitpid returns computes `WaitLoop`: interrupted calls are retried, a failure or an unknown pid ends it |
| `Jobs.WaitLoopCorrect` | src/job.c:385-412 | the wait stops after the shortest prefix of reports that leaves no member running, earlier only on a fatal return, with exactly the reports it read applied |
| `Jobs.WaitOutcomeUnique` | src/job.c:385-412 | that specification has one solution: for a given sequence of returns there is one place to stop |
| `Jobs.EachTakesItsLast` | src/job.c:391-411 | whatever order reports come in, each member ends as its own last report says and the status is the aggregate |
| `Jobs.OrderIsIrrelevant` | src/job.c:391-411 | two deliveries in which every child is last reported alike leave the same job, whatever the order across children |
| `Jobs.WaitsEndAlike` | src/job.c:385-426 | two waits that read such deliveries end with the same members, status, verdict and exit status |
| `Jobs.AggregateMeans` | src/job.c:42-63 | DONE iff all members are, RUNNING iff one runs, STOPPED otherwise |
| `Jobs.ContinueMeans` | src/job.c:354-383 | a continued job runs unless it has ended: exactly its stopped members change |
| `Jobs.CountIsKept` | src/job.c:339-352 | as many jobs are active as a cleanup leaves |
| `Jobs.WithoutDoneInOrder` | src/job.c:472-494 | a cleanup leaves exactly the jobs not DONE, in their order |
| `Jobs.EndingStatus` | src/job.c:414-426 | a status from 0 to 255: the exit code itself, or 128 more than the signal |
| `Jobs.JobManager.constructor` | src/job.c:238-244 | an empty table with ids from 1 |
| `Jobs.JobManager.Add` | src/job.c:246-272 | a fresh RUNNING job at the front with the next id, or nothing changes |
| `Jobs.JobManager.AddProcess` | src/job.c:288-320 | one running member appended to that job, status not recomputed, nothing else changed |
| `Jobs.JobManager.Count` | src/job.c:339-352 | the number of jobs not DONE |
| `Jobs.JobManager.ContinueJob` | src/job.c:354-383 | refused unless STOPPED and signalled; otherwise stopped members run and the status is the new aggregate |
| `Jobs.JobManager.WaitForeground` | src/job.c:385-412 | a job without a group is refused; otherwise the job becomes what `WaitLoop` says; no other job changes |
| `Jobs.JobManager.ExitStatusOf` | src/job.c:414-426 | the status of the last member if it ended, else none |
| `Jobs.JobManager.ReapOne` | src/job.c:428-470 | every unfinished member of one job takes its poll, a missing child counts as DONE, and the status is recomputed |
| `Jobs.JobManager.Reap` | src/job.c:428-470 | the same for every job of the table |
| `Jobs.JobManager.CleanupDone` | src/job.c:472-494 | exactly the DONE jobs go, order kept |
| `Jobs.JobManager.Remove` | src/job.c:496-516 | the first job of the group goes, or nothing |
| `JobControl.LaunchKeeps` | src/job.c:246-320 | a job registered the way the executor does it joins a table that still follows the kernel |
| `JobControl.WaitKeeps` | src/job.c:385-412 | a foreground wait against any kernel behaviour keeps table and kernel in step |
| `JobControl.ReapKeeps` | src/job.c:428-470 | so does a reap in which every child may move before and after its poll |
| `JobControl.ResumeKeeps` | src/job.c:354-383 | so does SIGCONT followed by the update of the records |
| `JobControl.CleanupKeeps` | src/job.c:472-494 | so does dropping finished jobs |
| `JobControl.ForgetKeeps` | src/job.c:496-516 | removing a job by group removes that job and no other, and keeps the invariant |
| `JobControl.NextKeeps` | src/job.c:354-516 | every step of shell or children keeps: a record lags only while a report is unread, DONE iff reaped, status is the aggregate, jobs share no process |
| `JobControl.DoneIsFinal` | src/job.c:428-470 | no step moves a record out of DONE or changes how it ended |
| `JobControl.ReapedStays` | src/job.c:428-470 | no step changes a reaped child |
| `JobControl.LimitKept` | src/executor.c:208-221 | with the test of the limit at launch, no step makes the active jobs exceed it |
| `JobControl.RunKeeps` | src/job.c:42-79 | over every run from an empty shell the invariant and the job limit hold |
| `JobControl.DoneIffReaped` | src/job.c:428-470 | in every reachable state a recorded process is DONE iff the kernel has reaped it |
| `JobControl.ReapLeavesOnlyNews` | src/job.c:428-470 | after a reap whose poll was not interrupted a record can be behind only on what the child did after the poll |
| `JobControl.ReapCatchesUp` | src/job.c:428-470 | if the children stand still, every record then equals the kernel's state and nothing is unread |
| `JobControl.ExitStatusIsLastStage` | src/job.c:414-426 | a finished job's exit status is that of its last stage as the kernel recorded it, 0 to 255 |
| `Gate.StepKeepsInv` | src/executor.c:84-146 | every step of parent or child keeps: tokens left plus children through equals tokens written, never more than forked, written only when registered |
| `Gate.RunInv` | src/executor.c:84-146 | the gate invariant holds in every interleaving |
| `Gate.PassesOnlyRegistered` | src/executor.c:676-746 | a child gets through only by reading one token, when the job and all its processes are listed and, for a foreground job on a terminal, the terminal was given |
| `Gate.ReleasedNeverEof` | src/executor.c:104-123 | once all tokens are written there are at least as many as children still undecided, so none can see end of file |
| `Gate.ClosedUnwrittenPassesNone` | src/executor.c:84-102 | if the parent closes without writing, no child is or gets through, then or later |
| `Gate.ClosedGateNeverBlocks` | src/executor.c:84-102 | once the parent has closed its end, undecided children cannot deadlock at the gate |
| `Descriptors.StageEnds` | src/executor.c:223-238 | after its redirections a stage holds pipe ends only as stdin and stdout, and the right ones |
| `Descriptors.PipelineWiring` | src/executor.c:534-671 | for any number of stages, pipe j's write end is open only as stdout of stage j and its read end only as stdin of stage j + 1; no gate end is left |
| `Descriptors.TheRestIsInherited` | src/executor.c:125-146 | every other descriptor is the shell's, except the event pipe and the devices the child closes |
| `Descriptors.ReadEndOnStdoutLosesIt` | src/executor.c:598-622 | what would happen to stdout if a read end landed on descriptor 1 |
| `Terminal.Tty.SetForeground` | src/terminal.c:126-132 | the owner changes iff it succeeds; without a terminal nothing happens |
| `Terminal.Tty.GetModes` | src/terminal.c:134-145 | on success the modes in force |
| `Terminal.Tty.SetModes` | src/terminal.c:147-158 | the modes change iff it succeeds |
| `Terminal.Tty.Restore` | src/terminal.c:160-172 | success means the shell's group owns the terminal in the shell's modes |
| `Terminal.ResumedAsStopped` | src/builtin.c:156-173 | in a proper history, in which every job owns the terminal when it runs, stops or is resumed there, whatever lies between: a job is resumed under the modes of its last stop iff they could be read then, or the older saved modes, or else those in force, happen to be the same |
| `Terminal.ProperIsFaithful` | src/builtin.c:156-173 | so every job whose modes were read at its last stop is resumed under exactly those |
| `Terminal.UnreadModesAreLost` | src/executor.c:264-267 | a job whose modes could not be read wakes up under others |
| `Executor.CreateGate` | src/executor.c:51-67 | both ends on the lowest free descriptors, or the table unchanged |
| `System.Os.ReapPid` | src/executor.c:148-167 | only for a child killed or ended: that child is reaped, no other child changes |
| `System.Os.WaitAny` | src/job.c:391-400 | one return of waitpid for the group: what a child reports at that moment, an interruption or a recorded failure |
| `System.Os.PollPid` | src/job.c:443-457 | one poll: what the child reports at that moment, or nothing if it failed, and its record |
| `System.Os.SendContinue` | src/job.c:354-383 | SIGCONT reaches every member of the group, or the failure is recorded |
| `Executor.Rollback` | src/executor.c:187-206 | all given children are killed and end up reaped, others only evolve |
| `Executor.ForkStage` | src/executor.c:534-600 | one turn up to setpgid: the exact descriptors held and the children forked, on every failure |
| `Executor.AbortTurn` | src/executor.c:537-658 | a failing turn gives back the original table, reaps every child of the pipeline and writes no token |
| `Executor.Turn` | src/executor.c:534-671 | one turn either advances pipes, pids and tables by one stage or undoes everything |
| `Executor.StartStages` | src/executor.c:534-671 | the fork loop: n stages born with their own two pipes and the gate, or everything undone; more than 64 is refused |
| `Executor.Register` | src/executor.c:678-712 | the whole job at the front of the table, or how far it got when memory ran out |
| `Executor.Release` | src/executor.c:104-123 | success means one token per child, written only for a registered job |
| `Executor.AbortLaunch` | src/executor.c:678-746 | a failure after the forks closes the gate, reaps all children and removes the job |
| `Executor.Launch` | src/executor.c:678-746 | registered in front, terminal handed over, one token per child, gate shut; or table, children and terminal as before |
| `Executor.Unleash` | src/executor.c:703-746 | the terminal is the job's, if it is to have it, then one token per child; or all undone, only because the terminal refused or a token could not be written |
| `Executor.WaitFor` | src/job.c:385-412 | the wait against the kernel, by the owner of the terminal: settled means no member runs; it fails only if waitpid did; still waiting only after as many returns as one has patience for; no other job changes, nothing is forgotten |
| `Executor.SaveModes` | src/executor.c:264-267 | the stopped job records the modes in force, if they can be read; no other job and no other group's history changes |
| `Executor.FinishForeground` | src/executor.c:259-295 | the terminal is the shell's again unless that restore failed; a finished job is removed and its status is that of its last stage; a stopped one stays and its stop is in the history; on a failed restore the job stays |
| `Executor.RemoveFinished` | src/executor.c:286-294 | exit status 0 to 255 of the last stage, and only that job removed |
| `Executor.AbandonJob` | src/executor.c:748-766 | after a failed wait the members are reaped, the job removed and the terminal the shell's again unless that restore failed |
| `Executor.RestoredInOrder` | src/executor.c:187-206 | a rollback leaves every child reaped or recorded and the table following the kernel |
| `Executor.LaunchedInOrder` | src/executor.c:678-746 | so does a registered launch |
| `Executor.WaitedInOrder` | src/job.c:385-412 | so does a foreground wait |
| `Executor.DroppedInOrder` | src/job.c:496-516 | so does dropping a job whose members are all reaped |
| `Executor.FinishSettled` | src/executor.c:259-295 | a settled job that has ended is removed with its last stage's status, a stopped one stays; neither is killed |
| `Executor.WaitAndFinish` | src/executor.c:750-768 | killed and reported as an error only after a failed wait; otherwise as `FinishSettled` |
| `Executor.SeeThrough` | src/executor.c:743-768 | a released job in the background is listed in front with no failure; in the foreground it is concluded: finished by itself with its last stage's status, stopped and listed, killed only after a failed wait, or listed only after a failed restore |
| `Executor.LaunchAndWait` | src/executor.c:676-768 | from the closing of the read end to the return: launched means registered, released and concluded; not launched means that one call failed, whose code it is, or the terminal refused, with all children reaped and the table as before |
| `Executor.StartPipeline` | src/executor.c:508-674 | gate and fork loop: n stages wired and waiting at the gate; or all undone because one call failed, whose code it is, or there are more than 64 |
| `Executor.ExecutePipeline` | src/executor.c:508-768 | for every chain length and every failure: descriptor table as found, every child reaped or recorded, older jobs and their modes untouched, gate acts in order, terminal the shell's again unless the last restore failed. Launched: n stages wired as `PipelineWiring` requires, n tokens written, the job in front or concluded. Not launched: every child reaped, and the code is that of the one call that failed, or there are more than 64 stages |
| `Executor.ExecuteSingle` | src/executor.c:375-506 | the same for one command |
| `Executor.ExecuteCommand` | src/executor.c:297-310 | the same for either, older jobs untouched, and an unchanged job limit is never exceeded |
| `Builtins.FindFirst` | src/builtin.c:134-142 | the first job the command applies to |
| `Builtins.FirstWithMeans` | src/builtin.c:134-142 | for fg the first job not DONE, for bg the first STOPPED |
| `Builtins.TakeTerminal` | src/builtin.c:150-164 | the job owns the terminal, in its own modes if it has any; or the terminal refused and is the shell's again |
| `Builtins.ContinueInKernel` | src/job.c:354-383 | SIGCONT and the records together keep the shell in order |
| `Builtins.Fg` | src/builtin.c:130-209 | either the terminal refused or SIGCONT could not be sent, and the table is as before; or the first unfinished job owns the terminal, is resumed, if stopped, under its saved modes or else those in force, is waited for and concluded with its last stage's status; no other job or group's history changes; the terminal is the shell's again unless the last restore failed |
| `Builtins.Resumed` | src/builtin.c:166-173 | the records are continued and the modes in force noted |
| `Builtins.FgWait` | src/builtin.c:175-208 | removed with all members reaped and the last stage's status, or stopped and listed with its stop in the history, or listed after an error; no other job changes |
| `Builtins.Bg` | src/builtin.c:211-240 | exactly the first stopped job is sent SIGCONT and continued, the terminal untouched; it fails only if there is none or the signal could not be sent |
| `Reaper.PollAll` | src/job.c:428-470 | every child not recorded as DONE is polled exactly once, in order, with everyone free to move meanwhile |
| `Reaper.ChildEvent` | src/shell.c:245-248 | those polls, then the table takes the answers and finished jobs go; nothing is forgotten, saved modes are kept, active jobs do not grow |
| `Reaper.EventServed` | src/shell.c:245-248 | so every zombie whose poll told something is reaped, every unread report was read and its record shows it, and a job of such zombies is no longer listed |
| `Reaper.ReapedInOrder` | src/shell.c:246-247 | a reap leaves every child reaped or recorded |
| `Reaper.CleanedInOrder` | src/shell.c:248-248 | dropping finished jobs forgets no child |
| `Shell.Handle` | src/shell.c:210-261 | any command, fg, bg or child event keeps the shell in order and does what it should from one state to the next (`Did`), with its runs, stops and resumptions at the terminal in its part of the history |
| `Shell.ParsedIsNeverTooLong` | src/executor.c:537-551 | no line the parser accepts has too many stages for the executor |
| `Shell.Session` | src/shell.c:210-261 | over any session every input does what it should, the shell is in order at every prompt, with the terminal the shell's unless the last restore failed; every job that runs, stops or is resumed in the foreground owns the terminal; the history is exactly what the inputs did; and a job stopped in the foreground is resumed by fg under exactly the modes it stopped under if they were read then, whatever ran in between |
| `EventLoop.PendingMeansMoved` | src/job.c:444-453 | a report pending after a poll that told something was made by a move after that poll |
| `EventLoop.MoveKeepsGood` | src/shell.c:237-248 | a step of children, signals, loop or commands keeps "every unread report has a child event on its way" iff it is not a dropped wakeup or an interrupted poll of an unread report with nothing else to announce it |
| `EventLoop.AnnouncedExactlyWhen` | src/shell.c:237-248 | over every interleaving that holds throughout iff no such step occurs |
| `EventLoop.SleepsUpToDate` | src/shell.c:237-248 | so whenever the shell sleeps at select, every recorded status equals the kernel's with nothing unread, and every job's status is the aggregate |
| `EventLoop.InterruptedPollIsStale` | src/job.c:446-452 | the step after which the shell sleeps with a stop unread |
| `SelfPipe.Signals.Notify` | src/event.c:51-66 | one more byte, unless the pipe is full |
| `SelfPipe.Signals.Handler` | src/sig.c:9-21 | the bit is set and the pipe notified |
| `SelfPipe.Signals.Drain` | src/event.c:68-84 | the pipe is empty and every bit set meanwhile is still there |
| `SelfPipe.Signals.Take` | src/sig.c:95-114 | all pending bits are returned and cleared; if the signals cannot be blocked, none is |
| `SelfPipe.StepKeepsInv` | src/sig.c:9-21 | a step of handler or loop keeps "a pending bit means the loop will wake or is on its way to take" iff it is not a failing block with a drained bit pending |
| `SelfPipe.WakesExactlyWhen` | src/sig.c:95-114 | over every interleaving the loop is bound to wake for every pending bit iff no such step occurs |
| `SelfPipe.MissedWake` | src/sig.c:104-105 | the run in which such a step leaves the loop at select with a bit pending and an empty pipe |
| `SelfPipe.RunInv` | src/shell.c:210-261 | that invariant holds in every interleaving without such a step |
| `SelfPipe.SelectNeverSleepsOnPending` | src/shell.c:220-239 | at select with a bit pending the pipe holds a byte, so select returns and the loop drains |
| `SelfPipe.NoLostSignal` | src/sig.c:95-114 | after any number of steps, none of them such a step, a delivered bit was returned by a take, or is pending and the loop is bound to wake |
| `Numbers.ParseUnsigned` | src/uart_protocol.c:19-47 | accepts exactly the nonempty digit strings up to UINT32_MAX, leading zeros included, with their value |
| `Numbers.ValueOfDecimal` | examples/stm32_uart_protocol/stm32_uart_protocol.c:106-118 | what "%u" prints is read back |
| `UartDevice.Handle` | examples/stm32_uart_protocol/stm32_uart_protocol.c:70-120 | every reply is one printable line of less than 128 bytes with its LF |
| `UartDevice.HandleInto` | examples/stm32_uart_protocol/stm32_uart_protocol.c:50-121 | the reply, iff all callbacks are there and it fits the buffer; 128 bytes are always enough |
| `UartDevice.Protocol.Feed` | examples/stm32_uart_protocol/stm32_uart_protocol.c:137-207 | the in-place receiver does what the byte machine does and replies exactly on LF |
| `UartDevice.FeedLine` | examples/stm32_uart_protocol/stm32_uart_protocol.c:137-207 | one line from a clean state gives one event, its classification, and a clean state |
| `UartDevice.FeedConcat` | examples/stm32_uart_protocol/stm32_uart_protocol.c:137-207 | output over a + b is the output over a, then that over b |
| `UartDevice.FeedRefinesLines` | examples/stm32_uart_protocol/stm32_uart_protocol.c:137-207 | over any byte stream exactly one event per LF: handled iff at most 127 printable bytes and at most one final CR, too long iff the printable run reaches 128 |
| `UartDevice.ClassifyExactly` | examples/stm32_uart_protocol/stm32_uart_protocol.c:137-207 | in plain numbers: a line is handled iff it is at most 127 printable bytes and at most one CR, too long iff its first 128 bytes are printable |
| `UartHost.ReceiveLoop` | src/uart_protocol.c:223-300 | the loop over any script of clock, wait and read computes `Receive` |
| `UartHost.ReceiveExact` | src/uart_protocol.c:223-300 | success means exactly the bytes before the first LF less one final CR, printable, at most 127; never more than 129 bytes taken, none after the LF |
| `UartHost.EndsExactly` | src/uart_protocol.c:209-300 | the loop goes on while turns are calm and the bytes an unfinished line, and ends at the first other turn, with the outcome or error that turn gives |
| `UartHost.InTimeMeans` | src/uart_protocol.c:119-137 | a turn is in time exactly while its clock is before the deadline |
| `UartHost.TimeoutIsRemaining` | src/uart_protocol.c:119-137 | each timeout passed down is deadline minus clock, positive, at most INT_MAX |
| `UartHost.TimeoutsShrink` | src/uart_protocol.c:229-236 | receive timeouts are positive and, with a monotone clock, never grow |
| `UartHost.WriteTimeoutBounds` | src/uart_protocol.c:212-236 | with a monotone clock no receive timeout exceeds the write's |
| `UartHost.WriteTimeoutIsRemaining` | src/uart_protocol.c:212-222 | the write's timeout is the deadline minus the clock, positive, at most INT_MAX |
| `UartHost.Transact` | src/uart_protocol.c:149-321 | the imperative request agrees with the order of obstacles in `Transaction`, caller's buffer and write timeout included |
| `UartHost.SuccessExactly` | src/uart_protocol.c:149-321 | a request succeeds iff device, request, size, time, flush, write, line, last clock reading and reply are all in order |
| `UartHost.RefusedBecause` | src/uart_protocol.c:149-208 | the error of a request that is refused before anything is received, first reason first |
| `UartHost.ExchangeFailsBecause` | src/uart_protocol.c:186-321 | the error of one that fails later, first reason first |
| `UartHost.FailureLeaves` | src/uart_protocol.c:149-190 | a request refused before it is parsed leaves the caller's buffer, a later failure an empty reply |
| `UartHost.ValidReplyExactly` | src/uart_protocol.c:81-105 | the valid replies spelled out, for each request |
| `UartHost.SuccessMeans` | src/uart_protocol.c:205-320 | success means a valid reply that is the line received, short enough, with the last clock reading before the one deadline |
| `UartEndToEnd.DeviceSeesRequest` | src/uart_protocol.c:49-79 | every request the host accepts reaches the device's handler unchanged, once |
| `UartEndToEnd.HeartbeatComesBack` | src/uart_protocol.c:81-105 | heartbeat values survive print and parse over all of uint32 |
| `UartEndToEnd.StatusComesBack` | src/uart_protocol.c:81-105 | a status reply is accepted and names the LED state and uptime read |
| `UartEndToEnd.ReplyIsValid` | src/uart_protocol.c:81-105 | the reply of a working device to any accepted request is accepted |
| `UartEndToEnd.SameLanguage` | src/uart_protocol.c:49-79 | both ends understand the same requests: the device answers ERR COMMAND or ERR ARGUMENT iff the host would refuse to send the line |
| `UartEndToEnd.BoardReplies` | examples/stm32_uart_protocol/stm32_uart_protocol.c:50-104 | what the device answers to LED, STATUS and PING for every answer of the board, and to a request that is too long |
| `UartEndToEnd.LedReplyMeansReadBack` | examples/stm32_uart_protocol/stm32_uart_protocol.c:93-104 | whatever the board does, an accepted LED reply means the device set the LED and read that state back |
| `UartEndToEnd.HostReadsLine` | src/uart_protocol.c:223-300 | the host's loop recovers any printable line delivered in time |
| `UartEndToEnd.EndToEnd` | src/uart_protocol.c:149-321 | request, device, reply and host together succeed for every accepted request |
| `Parser.Push` | src/parser.c:11-31 | a token within the limits is appended; otherwise the whole line has that error, whatever follows |
| `Parser.Tokenize` | src/parser.c:104-210 | the cursor loop yields the tokens of the line, or the error of the first token over a limit |
| `Parser.TakeToken` | src/parser.c:225-385 | the switch at one token, all syntax errors included |
| `Parser.BuildCommand` | src/parser.c:212-402 | the loop over the tokens builds the chain `Build` describes, and gives up iff one of its allocations fails |
| `ParserTokens.ScanIsTheTokens` | src/parser.c:104-210 | the tokens found are the one sequence that stands in the line: each where its text is, in order, only space between, words maximal, ">>" one token |
| `ParserTokens.LimitsExactly` | src/parser.c:11-31 | at most 128 tokens of less than 256 characters each |
| `ParserMeaning.StageBuilds` | src/parser.c:225-345 | the words and redirections of a stage, in any order, give that stage or are refused |
| `ParserMeaning.BuildsExactly` | src/parser.c:212-402 | tokens give a command iff they mean one: stages of 1 to 63 words and at most one input and output, joined by pipes with a word after each, and at most a final '&' |
| `ParserMeaning.ParsesExactly` | src/parser.c:86-402 | a line gives a command iff the tokens that stand in it, within the limits, mean it |
| `ParserErrors.RefusedBecause` | src/parser.c:225-402 | the syntax error is that of the first place that is wrong: the stages before mean a command, the tokens before fit their stage, and the next do not, for exactly that reason |
| `ParserMeaning.StatusExpands` | src/parser.c:232-250 | "$?" becomes text that reads back as the last status; other words stay |
| `Parser.ParseLine` | src/parser.c:86-102 | a line gives nothing, a chain or its error; nothing at all iff memory runs out |
| `ParserRoundTrip.ScanRender` | src/parser.c:104-210 | printed tokens are read back |
| `ParserRoundTrip.BuildChain` | src/parser.c:212-402 | the tokens of a good chain build that chain |
| `ParserRoundTrip.PrintThenParse` | src/parser.c:86-402 | every well-formed chain is recovered from its print, whatever the last status |
| `ParserRoundTrip.ParseIsWellFormed` | src/parser.c:212-402 | every chain returned has 1 to 63 words a stage, proper words and at most 128 tokens |
| `ParserRoundTrip.ParseThenPrint` | src/parser.c:86-402 | printing the chain of any line that parses and parsing that gives the same chain |
| `ParserRoundTrip.AtMost64Stages` | src/executor.c:537-551 | a parsed chain has at most 64 stages, so the overflow branch of the executor is unreachable for it |
| `Utf8.AcceptedIsUtf8` | src/oled.c:90-177 | what is accepted is a UTF8-char of section 4 of RFC 3629 and encodes the code point returned |
| `Utf8.Utf8IsAccepted` | src/oled.c:90-177 | text that starts with a UTF8-char is accepted with that length |
| `Utf8.AcceptsExactly` | src/oled.c:90-177 | accepted iff some prefix is a UTF8-char; end iff the text is empty |
| `Utf8.DecodesEncoding` | src/oled.c:105-173 | decoding inverts encoding for every scalar value from 1 to 0x10FFFF, whatever follows |
| `Utf8.EncodeThenDecode` | src/oled.c:325-332 | any code point sequence is recovered from its encoding |
| `Utf8.DecodeThenEncode` | src/oled.c:325-332 | repeated decoding ends in the one sequence the text encodes, or in an error |
| `Oled.PixelPosition` | src/oled.c:251-252 | (byte, bit) determines the pixel |
| `Oled.WithPixelShows` | src/oled.c:239-262 | setting a pixel changes that pixel and no other |
| `Oled.GlyphPixel` | src/oled.c:264-312 | the bit tests of the three drawing loops read the glyph's pixel |
| `Oled.CellsDisjoint` | src/oled.c:314-367 | no two glyph cells of a text overlap, wherever it starts |
| `Oled.CellsWithinScreen` | src/oled.c:334-352 | from column 112 or before every cell lies on the screen |
| `Oled.FitsExactlyWhen` | src/oled.c:343-352 | every text stays on the screen iff it starts at column 112 or before, or below row 32 |
| `OledText.GlyphExactly` | src/oled.c:76-312 | every pixel of a glyph in terms of the font bytes, and the missing glyph |
| `OledText.CharacterExactly` | src/oled.c:334-363 | where the next glyph goes, in plain numbers: at the cursor if it ends by column 128, else at the start of the next row if that ends by row 64, else nowhere; a newline starts a row |
| `OledText.EndExactly` | src/oled.c:325-332 | the end of the text and a malformed sequence end the layout, the latter with an error |
| `OledText.CellsSpellText` | src/oled.c:325-363 | the glyphs spell the text from its beginning, and well-formed text is drawn without error |
| `Oled.PaintedShowsEach` | src/oled.c:264-312 | over disjoint cells each glyph is shown as it is and the rest is untouched |
| `Oled.TextPicture` | src/oled.c:314-367 | after a text every cell of its layout shows its glyph and all other pixels are unchanged |
| `Oled.Display.SetPixel` | src/oled.c:239-262 | the buffer changes as `WithPixel` says; off the screen not at all |
| `Oled.Display.DrawCell` | src/oled.c:264-312 | the visible part of the cell shows the glyph, nothing else changes |
| `Oled.Display.DrawText` | src/oled.c:314-367 | the layout loop paints exactly the cells of the layout; failure iff malformed text or a start off the screen |
| `DeviceConfig.DecimalReadsBack` | src/device_config.c:170-190 | a number in decimal is read as that number, despite octal and hexadecimal prefixes |
| `DeviceConfigMeaning.HexadecimalReadsBack` | src/device_config.c:170-190 | a number in hexadecimal after 0x or 0X is read as that number |
| `DeviceConfigMeaning.OctalReadsBack` | src/device_config.c:170-190 | and in octal after 0 |
| `DeviceConfigMeaning.CaseIsIrrelevant` | src/device_config.c:181-181 | capital and small hexadecimal digits are worth the same |
| `DeviceConfigMeaning.NumberExactly` | src/device_config.c:170-190 | which texts are numbers, and which number: hexadecimal after 0x, octal after 0, decimal otherwise, no sign or space, at most the maximum |
| `DeviceConfigMeaning.TrimExactly` | src/device_config.c:140-155 | trimming takes away all space at both ends and nothing else |
| `DeviceConfigMeaning.IgnoredExactly` | src/device_config.c:385-392 | a line leaves everything as it is iff it is short enough, without NUL, and blank or a comment |
| `DeviceConfigMeaning.HeaderExactly` | src/device_config.c:394-442 | a header is a name of 1 to 63 characters in brackets, after a complete section, new, and at most the 16th |
| `DeviceConfigMeaning.HeaderErrors` | src/device_config.c:394-442 | the error of any other header |
| `DeviceConfigMeaning.SpacedKeyLine` | src/device_config.c:444-459 | a key line gives its key its value, whatever space stands around either |
| `DeviceConfigMeaning.KeyLineExactly` | src/device_config.c:444-459 | a key line is cut at its first '='; it takes effect on the open section or is EINVAL |
| `DeviceConfigMeaning.WordsExactly` | src/device_config.c:192-295 | keys, kinds and biases each have one spelling |
| `DeviceConfigMeaning.FieldExactly` | src/device_config.c:192-295 | a key with a value is taken iff it is not seen yet and the value says something for it; the section then has that and nothing else has changed |
| `DeviceConfigMeaning.CompleteExactly` | src/device_config.c:297-339 | the keys a section must and may have for each kind of device |
| `DeviceConfigMeaning.LoadsExactly` | src/device_config.c:385-468 | the error of a file is that of its first bad line, or of an incomplete last section; otherwise it gives its sections |
| `DeviceConfigMeaning.CanonicalExactly` | src/device_config.c:80-138 | the configurations a section can give, in plain numbers |
| `DeviceConfigMeaning.LoadableExactly` | src/device_config.c:365-483 | a list can be loaded from some file iff it has at most 16 such configurations with unique names |
| `DeviceConfigOrder.EffectsPermute` | src/device_config.c:192-295 | the effect of a section depends only on which lines it has |
| `DeviceConfigOrder.KeyOrderIsIrrelevant` | src/device_config.c:192-339 | permuting the lines of a section, comments and blank lines among them, gives the same outcome, errors included, whatever stands around them |
| `DeviceConfigPrint.AssignedOther` | src/device_config.c:219-294 | a key line sets its own field and no other |
| `DeviceConfigPrint.LoadIsGood` | src/device_config.c:365-483 | every list loaded has at most 16 sections, unique names, all required and only allowed keys, valid values, defaults elsewhere |
| `DeviceConfigPrint.PrintThenLoad` | src/device_config.c:365-483 | printing any such list and loading it gives that list |
| `DeviceConfigPrint.LoadPrintLoad` | src/device_config.c:365-483 | whatever file was loaded, printing and reloading changes nothing |
| `DeviceConfigLoad.TrimText` | src/device_config.c:140-155 | the two loops strip exactly the space at both ends |
| `DeviceConfigLoad.ReadLine` | src/device_config.c:341-363 | the bytes up to the next newline, or the end, or EINVAL for a NUL or an overlong line, or EIO |
| `DeviceConfigLoad.NextLineExactly` | src/device_config.c:341-363 | the next line is what stands before the next newline, if it has at most 511 bytes and no NUL |
| `DeviceConfigLoad.LastLineExactly` | src/device_config.c:341-363 | without a newline it is all that is left, or EIO if reading fails there, or the end |
| `DeviceConfigLoad.EnterSection` | src/device_config.c:394-442 | the header branch: previous section validated, name checked, duplicates and the 17th section refused |
| `DeviceConfigLoad.EnterField` | src/device_config.c:444-459 | the key branch |
| `DeviceConfigLoad.ReadAll` | src/device_config.c:385-465 | the whole loop agrees with the line-by-line specification |
| `DeviceConfigLoad.StreamIsLoad` | src/device_config.c:341-363 | without a read error the loop sees exactly the lines of the file |
| `DeviceConfigLoad.ReadErrorFails` | src/device_config.c:355-359 | a read error is never taken for the end of the file |
| `DeviceConfigLoad.ConfigList.LoadFile` | src/device_config.c:365-483 | succeeds iff the file opens, reads, closes and is valid; then the list is the file's, otherwise it is unchanged and the error is the first cause's |
| `DeviceLife.Device.constructor` | src/device.c:63-81 | closed, or disabled, with no backend call |
| `DeviceLife.Device.Open` | src/device.c:83-118 | new state, return value and backend call, all error cases included |
| `DeviceLife.Device.Read` | src/device.c:120-142 | likewise |
| `DeviceLife.Device.Write` | src/device.c:144-166 | likewise |
| `DeviceLife.Device.Control` | src/device.c:168-184 | likewise |
| `DeviceLife.Device.Close` | src/device.c:186-216 | likewise |
| `DeviceLife.Device.ReadOneByte` | src/uart_protocol.c:249-267 | a read that returns 0 puts the device in error |
| `DeviceLife.RunKeepsValid` | src/device.c:15-61 | over any calls and answers: opened implies open or in error, and a disabled device's backend is never called |
| `DeviceLife.CallMatchesRequest` | src/device.c:83-216 | a request reaches the backend as its own operation and the caller gets the backend's answer; otherwise it is refused or needs nothing |
| `DeviceLife.ReachesExactly` | src/device.c:34-61 | exactly when a read, write or control reaches the backend |
| `DeviceLife.RefusedBecause` | src/device.c:34-61 | otherwise the error, first reason first |
| `DeviceLife.OpenRefusedBecause` | src/device.c:83-118 | the same for open |
| `DeviceLife.CloseRefusedBecause` | src/device.c:186-216 | the same for close |
| `DeviceLife.QuarantineExactly` | src/device.c:15-32 | a failure leaves an open device usable iff it is one of eight |
| `DeviceLife.AnswerSettles` | src/device.c:15-32 | what an answer leaves behind: a success clears the error, one of eight failures keeps the state, any other puts the device in error |
| `DeviceLife.StepAgrees` | src/device.c:83-216 | one call keeps the device's flags and the backend's view in agreement iff it is not a positive close in error |
| `DeviceLife.AgreesIffNeverDeceived` | src/device.c:15-216 | over whole traces the device's flags and the backend's view agree throughout iff no close in error returned a positive value |
| `DeviceLife.ProtocolKeptExactly` | src/device.c:15-216 | over whole traces the backend sees opens and closes alternate, other calls only between, and after a fatal answer only closes until one succeeds, iff no usable, supported read, write or control is issued between a close in error that returned a positive value and the next close that succeeds or fails for good |
| `DeviceLife.NoWrongCall` | src/device.c:15-216 | with closes that return 0 or less the backend never sees a wrong call |
| `DeviceLife.PositiveCloseDeceives` | src/device.c:207-215 | the four calls after which a failed backend is read again |
| `DeviceLife.FailedOpenMayBeRepeated` | src/device.c:97-117 | a fatal open leaves a shut backend and a device in error, and an open that then succeeds puts it in use |
| `DeviceLife.OpensAndClosesAlternate` | src/device.c:83-216 | whatever the answers, successful opens and closes alternate and other calls fall between them |
| `DeviceManager.Heap.Free` | src/device_backend.c:36-37 | a context is released only while live, and no id is ever released twice |
| `DeviceManager.DestroyDevice` | src/device.c:218-236 | the device takes its close, the hook closes the backend once more, and the context, if owned, is released once |
| `DeviceManager.HookClosesAgain` | src/device_backend.c:27-39 | for a backend that is shut, that second close is one it should not see |
| `DeviceManager.BackendInit` | src/device_backend.c:414-494 | a closed device with a context of its own, or an error and no context left |
| `DeviceManager.OpsExactly` | src/device_backend.c:389-412 | which operations each kind of backend has |
| `DeviceManager.LedPathFits` | src/device_backend.c:476-484 | the LED path always fits, so that exit cannot be taken |
| `DeviceManager.Manager.Find` | src/device_manager.c:15-31 | the device of that name, or none has it |
| `DeviceManager.Manager.Register` | src/device_manager.c:43-67 | one new closed device at the end, or the exact error and no change |
| `DeviceManager.Manager.Operate` | src/cmd_device.c:439-466 | only the named device takes its step; the caller gets that step's return value and its backend that step's call |
| `DeviceManager.Manager.CloseAll` | src/device_manager.c:69-94 | every device takes its close, and the first error is reported |
| `DeviceManager.FirstErrorIsFirst` | src/device_manager.c:77-93 | the error reported is that of the first close that failed |
| `DeviceManager.Manager.Destroy` | src/device_manager.c:96-109 | every device takes its close and every owned context its hook's close, every context held is freed once, the table is empty |
| `DeviceManager.Manager.Fill` | src/device_manager.c:135-148 | one new device per configuration, in order, or an error with only its own contexts to give back |
| `DeviceManager.Manager.Load` | src/device_manager.c:111-153 | refused with EBUSY if any device is open; otherwise the whole file replaces the table by closed, uniquely named devices, or nothing changes and the error is that of the file or ENOMEM; live contexts are exactly those held |
| `DeviceManager.Session` | src/shell_context.c:219-264 | over any run from start to exit live contexts equal those held, and in the end every context was freed exactly once |

## Left out

- The job list is a sequence of values, not linked nodes: aliasing and `free` of nodes are not modelled.
- Process ids are not reused, children stay in their process group, and `job_shutdown` (which needs a fair kernel) is not modelled.
- Executor: the child after its pipes (`setredirect`, `execvp`) and the file redirections of builtins; a failing `dup2` ends the child like any death.
- Executor.Rollback: that SIGKILL ends a child is taken from the kernel.
- System.Os.ReapPid: a waitpid error other than an interruption, which a live child of the shell cannot cause, is not modelled.
- Executor.WaitFor: looks at as many waitpid returns as it is given patience for, any number, after which the call is reported as still blocked.
- Terminal.Tty.Restore: several callers ignore its result, so the terminal is the shell's at a prompt unless the last restore failed.
- Numbers.ParseUnsigned: the byte-for-byte identical copy in the STM32 example is modelled by the same method.
- UartHost.Transact: the flush, write-all and wait controls are inputs with a result; null pointers are excluded by the types.
- Oled: the glyph tables are a parameter (a function from code point to bitmap); the I2C transfers of `oled_refresh` and `oled_init` are not modelled.
- DeviceConfigLoad.ConfigList.LoadFile: the bit mask of keys seen is a set of keys; `strtoul` is modelled for the C locale and base prefixes 0 and 0x.
- DeviceLife: the trace theorems are about the calls made by `src/device.c`, not the one of the destroy hook (`src/device_backend.c:31-34`).
- The printing of syntax errors, the freeing of command chains and the texts of error messages.
- DeviceManager.Manager.Register: the context of a device registered by hand belongs to the caller and is not on the modelled heap.
- The ioctl and termios work of the backends (`serial_port`, `i2c_bus`, `gpio_line`, `led_control`, `sysfs_io`, `watchdog_device`) is behind their results.
- Monitors and inspectors (`runtime_monitor`, `process_monitor`, `network_monitor`, `thermal_monitor`, `hardware_info`, `system_info`, `device_tree`), the other builtins, the device and runtime commands, logging, `config.c`, the dispatcher and input editing would add easy members only.

/** fg and bg of src/builtin.c. */
module Builtins {
  import opened Options
  import opened Kernel
  import opened Jobs
  import opened JobControl
  import opened Terminal
  import opened System
  import opened Executor

  /** The first job the command applies to, or the number of jobs. */
  function FirstWith(jobs: seq<Job>, running: bool): (j: nat)
    ensures j <= |jobs|
    ensures j < |jobs| ==> Fits(jobs[j], running)
    ensures forall k :: 0 <= k < j ==> !Fits(jobs[k], running)
  {
    if jobs == [] || Fits(jobs[0], running) then 0
    else
      var r := FirstWith(jobs[1..], running);
      assert forall k :: 1 <= k < 1 + r ==> jobs[k] == jobs[1..][k - 1];
      1 + r
  }

  /** fg takes a running or stopped job, bg only a stopped one. */
  predicate Fits(job: Job, running: bool) {
    job.status == JobStopped || (running && job.status == JobRunning)
  }

  /** fg takes the first job that is not DONE, bg the first that is STOPPED. */
  lemma FirstWithMeans(jobs: seq<Job>, j: nat)
    requires j <= |jobs|
    ensures j == FirstWith(jobs, true) <==>
      (j < |jobs| ==> jobs[j].status != JobDone) && forall k :: 0 <= k < j ==> jobs[k].status == JobDone
    ensures j == FirstWith(jobs, false) <==>
      (j < |jobs| ==> jobs[j].status == JobStopped) && forall k :: 0 <= k < j ==> jobs[k].status != JobStopped
  {
    hide FirstWith;
    var a, b := FirstWith(jobs, true), FirstWith(jobs, false);
    assert forall k :: 0 <= k < |jobs| ==> (Fits(jobs[k], true) <==> jobs[k].status != JobDone);
    assert forall k :: 0 <= k < |jobs| ==> (Fits(jobs[k], false) <==> jobs[k].status == JobStopped);
  }

  method FindFirst(jobs: seq<Job>, running: bool) returns (j: nat)
    ensures j == FirstWith(jobs, running)
  {
    j := 0;
    while j < |jobs| && !Fits(jobs[j], running)
      invariant j <= |jobs|
      invariant forall k :: 0 <= k < j ==> !Fits(jobs[k], running)
    {
      j := j + 1;
    }
  }

  lemma ResumedInOrder(w: World, j: nat, mid: map<Pid, RunState>)
    requires Inv(w) && Accounted(w.kids, w.jobs) && j < |w.jobs| && EvolvesAll(w.kids, mid)
    ensures var kids' := Sigcont(mid, w.jobs[j]);
      && Inv(World(kids', w.jobs[j := Continue(w.jobs[j])])) && Accounted(kids', w.jobs[j := Continue(w.jobs[j])])
      && SamePids(w.jobs[j], Continue(w.jobs[j])) && kids'.Keys == w.kids.Keys
  {
    var kids' := Sigcont(mid, w.jobs[j]);
    assert EvolvesAll(kids', kids');
    ResumeKeeps(w, j, mid, kids');
    AccountedSame(w.kids, w.jobs, kids', w.jobs[j := Continue(w.jobs[j])]);
  }

  /** `job_continue` against the kernel: SIGCONT to the group of a stopped job, then the records. */
  method ContinueInKernel(os: Os, jobs: JobManager, tty: Tty, j: nat) returns (ok: bool)
    requires ShellValid(os, jobs) && ModesKept(os, jobs, tty) && j < |jobs.jobs|
    modifies os`kids, os`failures, os`continued, jobs`jobs
    ensures ShellValid(os, jobs) && ModesKept(os, jobs, tty) && os.kids.Keys == old(os.kids.Keys)
    ensures jobs.jobs == if ok then old(jobs.jobs)[j := Continue(old(jobs.jobs)[j])] else old(jobs.jobs)
    ensures ok ==> old(jobs.jobs)[j].status == JobStopped
    ensures os.continued == old(os.continued) + if ok then [old(jobs.jobs)[j].pgid] else []
    ensures os.failures == old(os.failures) + if old(jobs.jobs)[j].status == JobStopped && !ok then [NoContinue] else []
  {
    hide Inv, Accounted, Kept, SamePids, Continue, Sigcont;
    ghost var w := World(os.kids, jobs.jobs);
    JobHasGroup(w, j);
    os.Time();
    StayedInOrder(w, os.kids);
    ResumedInOrder(w, j, os.kids);
    var job := jobs.jobs[j];
    var sent := false;
    if job.pgid > 0 && job.status == JobStopped {
      sent := os.SendContinue(job);
    }
    ok := jobs.ContinueJob(j, sent);
    if ok {
      KeptSame(os.kids.Keys, w.jobs, tty.history, tty.initialized, j, jobs.jobs[j]);
    }
  }

  lemma StayedInOrder(w: World, kids': map<Pid, RunState>)
    requires Inv(w) && Accounted(w.kids, w.jobs) && EvolvesAll(w.kids, kids')
    ensures Inv(World(kids', w.jobs)) && Accounted(kids', w.jobs)
  {
    hide Inv, Recorded;
    EnvKeeps(w, kids');
  }

  /** Job j is still there with the same members; no other job changed. */
  predicate Remains(before: seq<Job>, j: nat, after: seq<Job>)
    requires j < |before|
  {
    && |after| == |before| && after == before[j := after[j]]
    && SamePids(before[j], after[j].(modes := before[j].modes))
  }

  predicate MembersGone(kids: map<Pid, RunState>, job: Job) {
    forall i :: 0 <= i < |job.processes| ==> job.processes[i].pid in kids && kids[job.processes[i].pid].Reaped?
  }

  /** Job j is gone with all its members, and this is how its last stage ended. */
  predicate Removed(kids: map<Pid, RunState>, before: seq<Job>, j: nat, after: seq<Job>, code: int)
    requires j < |before|
  {
    var ps := before[j].processes;
    && after == before[..j] + before[j + 1..]
    && ps != [] && MembersGone(kids, before[j]) && code == EndingStatus(kids[ps[|ps| - 1].pid].end)
  }

  /** What waiting for job j in the foreground comes to. Still running after all the patience. Or
      finished, gone and reported with the status of its last stage. Or stopped and still listed.
      Or still listed after a failed wait, or after a failed restore of the terminal. */
  ghost predicate FgEnded(kids: map<Pid, RunState>, before: seq<Job>, j: nat, after: seq<Job>, out: Outcome,
                          was: Ledger, now: Ledger, patience: nat, restoreFailed: bool)
    requires j < |before|
  {
    if out == Blocked then
      && now.failures == was.failures && now.waits == was.waits + patience
      && Remains(before, j, after) && after[j].status == JobRunning
    else if out.code >= 0 then
      && now.failures == was.failures
      && (|| Removed(kids, before, j, after, out.code)
          || (out.code == OK && Remains(before, j, after) && after[j].status == JobStopped))
    else
      && out.code == ERR_UNKNOWN && Remains(before, j, after)
      && if now.failures == was.failures then restoreFailed && after[j].status != JobRunning
         else now.failures == was.failures + [NoWait]
  }

  /** The modes a resumed job finds: those saved with it, if any; else those in force. */
  function ModesFor(job: Job, terminal: bool, found: Modes): Modes {
    if terminal && job.modes.Some? then job.modes.value else found
  }

  /** What fg does with job j. Either it gets nowhere, because the terminal refused or SIGCONT could
      not be sent, and the table is as before. Or the job owns the terminal, is resumed under the
      modes that are its own if it was stopped, and is waited for. */
  ghost predicate FgCame(kids: map<Pid, RunState>, before: seq<Job>, j: nat, after: seq<Job>, out: Outcome,
                         resumed: Option<Modes>, was: Ledger, now: Ledger, patience: nat, terminal: bool, found: Modes,
                         restoreFailed: bool)
    requires j < |before|
  {
    var job := before[j];
    || (FgRefused(was, now, out) && after == before && resumed.None? && now.history == was.history)
    || (&& FgEnded(kids, before, j, after, out, was, now, patience, restoreFailed)
        && resumed == (if job.status == JobStopped then Some(ModesFor(job, terminal, found)) else None)
        && Appends(was.history, now.history, job.pgid)
        && (terminal ==> was.history + FgEvents(job, found) <= now.history)
        && (terminal && out == Code(OK) && |after| == |before| ==> EndsInStop(was.history, now.history, job.pgid)))
  }

  predicate FgRefused(was: Ledger, now: Ledger, out: Outcome) {
    || (out == Code(ERR_UNKNOWN) && now.failures == was.failures && now.refused > was.refused)
    || (out == Code(ERR_JOB) && now.failures == was.failures + [NoContinue])
  }

  /** With a terminal, what the history shows first: the job is resumed if it was stopped, and run,
      as the owner of the terminal. */
  function FgEvents(job: Job, found: Modes): seq<ModeEvent> {
    (if job.status == JobStopped then [Wake(job.pgid, job.pgid, found, ModesFor(job, true, found))] else []) +
    [Runs(job.pgid, job.pgid)]
  }

  /** `builtin_fg`. The first unfinished job is given the terminal, in the modes saved with it if
      there are any, resumed if it was stopped, and waited for; at the end the terminal is the
      shell's again unless that failed. `resumed` are the modes in force when SIGCONT is sent. */
  method Fg(os: Os, jobs: JobManager, tty: Tty, patience: nat) returns (out: Outcome, ghost resumed: Option<Modes>)
    requires ShellValid(os, jobs) && ModesKept(os, jobs, tty)
    requires tty.restoreFailed || tty.AtPrompt()
    modifies os`kids, os`failures, os`waits, os`continued, jobs`jobs, tty
    ensures ShellValid(os, jobs) && ModesKept(os, jobs, tty) && os.kids.Keys == old(os.kids.Keys)
    ensures out != Blocked ==> tty.restoreFailed || tty.AtPrompt()
    ensures var j, before := FirstWith(old(jobs.jobs), true), old(jobs.jobs);
      if j == |before| then
        out == Code(ERR_JOB) && jobs.jobs == before && LedgerOf(os, tty) == old(LedgerOf(os, tty))
      else
        FgCame(os.kids, before, j, jobs.jobs, out, resumed, old(LedgerOf(os, tty)), LedgerOf(os, tty), patience,
               tty.initialized, old(tty.modes), tty.restoreFailed)
  {
    hide Inv, Accounted, Os.Valid, Kept, SamePids, Continue, FgEnded, FgCame;
    resumed := None;
    var j := FindFirst(jobs.jobs, true);
    if j == |jobs.jobs| {
      out := Code(ERR_JOB);
      return;
    }
    ghost var before, was, found := jobs.jobs, LedgerOf(os, tty), tty.modes;
    var job := jobs.jobs[j];
    var ok := TakeTerminal(tty, job);
    if !ok {
      out := Code(ERR_UNKNOWN);
      FgGotNowhere(os.kids, before, j, out, was, LedgerOf(os, tty), patience, tty.initialized, found,
                   tty.restoreFailed);
      return;
    }
    if job.status == JobStopped {
      ok := Resumed(os, jobs, tty, j, found);
      if !ok {
        var _ := tty.Restore();
        out := Code(ERR_JOB);
        FgGotNowhere(os.kids, before, j, out, was, LedgerOf(os, tty), patience, tty.initialized, found,
                     tty.restoreFailed);
        return;
      }
      resumed := Some(tty.modes);
      ContinueKeepsModes(job);
    }
    ghost var middle, mid := jobs.jobs, LedgerOf(os, tty);
    out := FgWait(os, jobs, tty, j, patience);
    StillThatJob(os.kids, before, j, middle, jobs.jobs, out, mid, LedgerOf(os, tty), patience, tty.restoreFailed);
    FgGotThrough(os.kids, before, j, jobs.jobs, out, resumed, was, mid, LedgerOf(os, tty), patience, tty.initialized,
                 found, tty.restoreFailed);
  }

  /** The terminal goes to the job, in the job's modes. */
  method TakeTerminal(tty: Tty, job: Job) returns (ok: bool)
    requires tty.restoreFailed || tty.AtPrompt()
    modifies tty`owner, tty`modes, tty`restoreFailed, tty`refused
    ensures ok ==>
      && tty.refused == old(tty.refused) && tty.restoreFailed == old(tty.restoreFailed)
      && tty.modes == ModesFor(job, tty.initialized, old(tty.modes))
      && (if tty.initialized then tty.owner == job.pgid else tty.owner == old(tty.owner))
    ensures !ok ==> tty.refused > old(tty.refused) && (tty.restoreFailed || tty.AtPrompt())
  {
    ok := tty.SetForeground(job.pgid);
    if ok && job.modes.Some? {
      ok := tty.SetModes(job.modes.value);
      if !ok {
        var _ := tty.Restore();
      }
    }
  }

  lemma FgGotNowhere(kids: map<Pid, RunState>, before: seq<Job>, j: nat, out: Outcome, was: Ledger, now: Ledger,
                     patience: nat, terminal: bool, found: Modes, restoreFailed: bool)
    requires j < |before| && FgRefused(was, now, out) && now.history == was.history
    ensures FgCame(kids, before, j, before, out, None, was, now, patience, terminal, found, restoreFailed)
  {
  }

  lemma FgGotThrough(kids: map<Pid, RunState>, before: seq<Job>, j: nat, after: seq<Job>, out: Outcome,
                     resumed: Option<Modes>, was: Ledger, mid: Ledger, now: Ledger, patience: nat, terminal: bool,
                     found: Modes, restoreFailed: bool)
    requires j < |before| && mid.failures == was.failures && mid.waits == was.waits && mid.refused == was.refused
    requires FgEnded(kids, before, j, after, out, mid, now, patience, restoreFailed)
    requires resumed == if before[j].status == JobStopped then Some(ModesFor(before[j], terminal, found)) else None
    requires mid.history == was.history + if terminal && resumed.Some?
      then [Wake(before[j].pgid, before[j].pgid, found, resumed.value)] else []
    requires Appends(mid.history, now.history, before[j].pgid)
    requires terminal ==> mid.history + [Runs(before[j].pgid, before[j].pgid)] <= now.history
    requires terminal && out == Code(OK) && |after| == |before| ==>
      EndsInStop(mid.history, now.history, before[j].pgid)
    ensures FgCame(kids, before, j, after, out, resumed, was, now, patience, terminal, found, restoreFailed)
  {
  }

  lemma StillThatJob(kids: map<Pid, RunState>, before: seq<Job>, j: nat, middle: seq<Job>, after: seq<Job>,
                     out: Outcome, was: Ledger, now: Ledger, patience: nat, restoreFailed: bool)
    requires j < |before| && (middle == before || middle == before[j := Continue(before[j])])
    requires FgEnded(kids, middle, j, after, out, was, now, patience, restoreFailed)
    ensures FgEnded(kids, before, j, after, out, was, now, patience, restoreFailed)
  {
    ContinueSamePids(before[j]);
    hide Continue, EndingStatus;
  }

  lemma ContinueSamePids(job: Job)
    ensures SamePids(job, Continue(job))
  {
  }

  /** The resumption in fg: job_continue, noted with the modes in force. */
  method Resumed(os: Os, jobs: JobManager, tty: Tty, j: nat, ghost found: Modes) returns (ok: bool)
    requires ShellValid(os, jobs) && ModesKept(os, jobs, tty) && j < |jobs.jobs| && jobs.jobs[j].status == JobStopped
    requires tty.modes == ModesFor(jobs.jobs[j], tty.initialized, found)
    requires tty.initialized ==> tty.owner == jobs.jobs[j].pgid
    modifies os`kids, os`failures, os`continued, jobs`jobs, tty`history
    ensures ShellValid(os, jobs) && ModesKept(os, jobs, tty) && os.kids.Keys == old(os.kids.Keys)
    ensures jobs.jobs == if ok then old(jobs.jobs)[j := Continue(old(jobs.jobs)[j])] else old(jobs.jobs)
    ensures os.continued == old(os.continued) + if ok then [old(jobs.jobs)[j].pgid] else []
    ensures os.failures == old(os.failures) + if ok then [] else [NoContinue]
    ensures var pgid := old(jobs.jobs)[j].pgid;
      tty.history == old(tty.history) + if ok && tty.initialized then [Wake(pgid, pgid, found, tty.modes)] else []
  {
    hide Inv, Accounted, Os.Valid, Kept, SamePids, Continue;
    ghost var job := jobs.jobs[j];
    ContinueKeepsModes(job);
    ok := ContinueInKernel(os, jobs, tty, j);
    if ok && tty.initialized {
      KeptResumed(World(os.kids, jobs.jobs), tty.history, j, found, tty.modes);
      tty.NoteResume(jobs.jobs[j].pgid, found);
    }
  }

  lemma ContinueKeepsModes(job: Job)
    ensures Continue(job).modes == job.modes && Continue(job).pgid == job.pgid
  {
  }

  /** fg from the wait on. */
  method FgWait(os: Os, jobs: JobManager, tty: Tty, j: nat, patience: nat) returns (out: Outcome)
    requires ShellValid(os, jobs) && ModesKept(os, jobs, tty) && j < |jobs.jobs|
    requires if tty.initialized then tty.owner == jobs.jobs[j].pgid else tty.restoreFailed || tty.AtPrompt()
    modifies os`kids, os`failures, os`waits, jobs`jobs, tty
    ensures ShellValid(os, jobs) && ModesKept(os, jobs, tty) && os.kids.Keys == old(os.kids.Keys)
    ensures out != Blocked ==> tty.restoreFailed || tty.AtPrompt()
    ensures FgEnded(os.kids, old(jobs.jobs), j, jobs.jobs, out, old(LedgerOf(os, tty)), LedgerOf(os, tty), patience,
                    tty.restoreFailed)
    ensures var pgid := old(jobs.jobs)[j].pgid;
      && Appends(old(tty.history), tty.history, pgid)
      && (tty.initialized ==> old(tty.history) + [Runs(pgid, pgid)] <= tty.history)
      && (tty.initialized && out == Code(OK) && |jobs.jobs| == |old(jobs.jobs)| ==>
            EndsInStop(old(tty.history), tty.history, pgid))
  {
    hide Inv, Accounted, Kept, Os.Valid, ExitStatus, SamePids;
    var verdict := WaitFor(os, jobs, tty, j, patience);
    SameButModes(old(jobs.jobs)[j], jobs.jobs[j], jobs.jobs[j].modes);
    if verdict == StillWaiting {
      return Blocked;
    }
    if verdict == Error {
      var _ := tty.Restore();
      return Code(ERR_UNKNOWN);
    }
    ghost var settled := jobs.jobs;
    if jobs.jobs[j].status == JobStopped {
      SaveModes(os, jobs, tty, j);
      SameButModes(old(jobs.jobs)[j], settled[j], jobs.jobs[j].modes);
    }
    var ok := tty.Restore();
    if !ok {
      return Code(ERR_UNKNOWN);
    }
    if jobs.jobs[j].status == JobStopped {
      return Code(OK);
    }
    var code := RemoveFinished(os, jobs, j);
    KeptDrop(os.kids.Keys, settled, tty.history, tty.initialized, j);
    FinishedIsRemoved(os.kids, old(jobs.jobs), settled, j, code);
    out := Code(code);
  }

  lemma SameButModes(a: Job, b: Job, modes: Option<int>)
    requires SamePids(a, b)
    ensures SamePids(a, b.(modes := a.modes)) && b.(modes := modes).(modes := a.modes) == b.(modes := a.modes)
  {
  }

  lemma FinishedIsRemoved(kids: map<Pid, RunState>, before: seq<Job>, settled: seq<Job>, j: nat, code: int)
    requires Inv(World(kids, settled)) && j < |before| && Remains(before, j, settled)
    requires settled[j].status == JobDone && Some(code) == ExitStatus(settled[j])
    ensures Removed(kids, before, j, settled[..j] + settled[j + 1..], code)
  {
    var w := World(kids, settled);
    ExitStatusIsLastStage(w, j);
    DoneMeansReaped(w, j);
    assert JobTracks(settled[j], kids);
    hide Inv, ExitStatus, EndingStatus;
    forall i | 0 <= i < |before[j].processes|
      ensures before[j].processes[i].pid in kids && kids[before[j].processes[i].pid].Reaped?
    {
      assert settled[j].processes[i].pid == before[j].processes[i].pid;
      assert Member(settled[j], settled[j].processes[i].pid);
    }
  }

  /** `builtin_bg`: the first stopped job is sent SIGCONT and continued; the terminal is not
      touched. It fails only if there is none or SIGCONT cannot be sent. */
  method Bg(os: Os, jobs: JobManager, tty: Tty) returns (code: int)
    requires ShellValid(os, jobs) && ModesKept(os, jobs, tty)
    modifies os`kids, os`failures, os`continued, jobs`jobs
    ensures ShellValid(os, jobs) && ModesKept(os, jobs, tty)
    ensures code == OK || code == ERR_JOB
    ensures var j, before := FirstWith(old(jobs.jobs), false), old(jobs.jobs);
      if code == OK then
        && j < |before| && jobs.jobs == before[j := Continue(before[j])]
        && os.continued == old(os.continued) + [before[j].pgid] && os.failures == old(os.failures)
      else
        && jobs.jobs == before && os.continued == old(os.continued)
        && os.failures == old(os.failures) + if j < |before| then [NoContinue] else []
  {
    hide Inv, Accounted, Kept, Os.Valid, Continue;
    var j := FindFirst(jobs.jobs, false);
    if j == |jobs.jobs| {
      return ERR_JOB;
    }
    var ok := ContinueInKernel(os, jobs, tty, j);
    code := if ok then OK else ERR_JOB;
  }
}

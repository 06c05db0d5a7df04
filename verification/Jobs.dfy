/** The job table of src/job.c. The results of `waitpid` and `kill` are inputs, so
    every operation is a function of the table and of what the kernel answered. */
module Jobs {
  import opened Options
  import opened Kernel

  datatype ProcessStatus = ProcessRunning | ProcessStopped | ProcessDone
  datatype JobStatus = JobRunning | JobStopped | JobDone

  datatype Process = Process(pid: Pid, status: ProcessStatus, wait: Option<WaitStatus>)

  datatype Job = Job(id: int, pgid: Pid, status: JobStatus, processes: seq<Process>, modes: Option<int>)

  /** The status a job owes to its members. */
  function Aggregate(ps: seq<Process>): JobStatus {
    if exists i :: 0 <= i < |ps| && ps[i].status == ProcessRunning then JobRunning
    else if exists i :: 0 <= i < |ps| && ps[i].status == ProcessStopped then JobStopped
    else JobDone
  }

  function UpdateStatus(job: Job): Job {
    if job.processes == [] then job else job.(status := Aggregate(job.processes))
  }

  function ApplyWaitStatus(p: Process, st: WaitStatus): Process {
    Process(p.pid,
            match st
            case Ended(_) => ProcessDone
            case StoppedBy(_) => ProcessStopped
            case Continued => ProcessRunning,
            Some(st))
  }

  /** The first member with this pid, or |ps|. */
  function FindProcess(ps: seq<Process>, pid: Pid): (i: nat)
    ensures i <= |ps|
    ensures i < |ps| ==> ps[i].pid == pid
    ensures forall k :: 0 <= k < i ==> ps[k].pid != pid
  {
    if ps == [] then 0
    else if ps[0].pid == pid then 0
    else
      var r := FindProcess(ps[1..], pid);
      assert forall k :: 1 <= k < 1 + r ==> ps[k].pid == ps[1..][k - 1].pid;
      1 + r
  }

  function ApplyReport(job: Job, pid: Pid, st: WaitStatus): Job {
    var i := FindProcess(job.processes, pid);
    if i == |job.processes| then job
    else UpdateStatus(job.(processes := job.processes[i := ApplyWaitStatus(job.processes[i], st)]))
  }

  // ---------------------------------------------------------------- waiting in the foreground

  /** One return of the blocking `waitpid(-pgid)`. */
  datatype WaitReturn = Interrupted | Failed | Report(pid: Pid, st: WaitStatus)

  /** How far a foreground wait got: the script of returns may end before the loop does. */
  datatype Verdict = Settled | Error | StillWaiting

  datatype WaitResult = WaitResult(job: Job, used: nat, verdict: Verdict)

  predicate Member(job: Job, pid: Pid) {
    exists i :: 0 <= i < |job.processes| && job.processes[i].pid == pid
  }

  predicate HasRunning(job: Job) {
    exists i :: 0 <= i < |job.processes| && job.processes[i].status == ProcessRunning
  }

  /** The return makes the loop give up. */
  predicate Fatal(job: Job, ret: WaitReturn) {
    ret.Failed? || (ret.Report? && !Member(job, ret.pid))
  }

  function ApplyReturn(job: Job, ret: WaitReturn): Job {
    if ret.Report? then ApplyReport(job, ret.pid, ret.st) else job
  }

  /** The reports of `rets`, applied in order with no stopping rule. */
  function ApplyAll(job: Job, rets: seq<WaitReturn>): Job
    decreases |rets|
  {
    if rets == [] then job else ApplyAll(ApplyReturn(job, rets[0]), rets[1..])
  }

  predicate Consistent(job: Job) {
    job.processes != [] && job.status == Aggregate(job.processes)
  }

  lemma ApplyReturnKeeps(job: Job, ret: WaitReturn)
    requires Consistent(job)
    ensures var after := ApplyReturn(job, ret);
      && Consistent(after)
      && after.pgid == job.pgid && after.id == job.id && after.modes == job.modes
      && |after.processes| == |job.processes|
      && (forall i :: 0 <= i < |job.processes| ==> after.processes[i].pid == job.processes[i].pid)
      && (forall pid :: Member(after, pid) <==> Member(job, pid))
  {
    var after := ApplyReturn(job, ret);
    forall pid ensures Member(after, pid) <==> Member(job, pid) {
      if Member(job, pid) {
        var i :| 0 <= i < |job.processes| && job.processes[i].pid == pid;
        assert after.processes[i].pid == pid;
      }
    }
  }

  /** What `job_wait_foreground` computes from a script of `waitpid` returns. */
  function WaitLoop(job: Job, rets: seq<WaitReturn>): (r: WaitResult)
    decreases |rets|
  {
    if job.status != JobRunning then WaitResult(job, 0, Settled)
    else if rets == [] then WaitResult(job, 0, StillWaiting)
    else if Fatal(job, rets[0]) then WaitResult(job, 1, Error)
    else
      var rest := WaitLoop(ApplyReturn(job, rets[0]), rets[1..]);
      rest.(used := rest.used + 1)
  }

  /** How many of the returns read had their report applied. */
  function Applied(r: WaitResult): int {
    if r.verdict == Error then r.used - 1 else r.used
  }

  /** What a foreground wait owes its caller. It stops after the shortest prefix of the
      script that leaves no member running, earlier only on a fatal return, and it has
      applied exactly the reports it read. */
  ghost predicate WaitsForeground(job: Job, rets: seq<WaitReturn>, r: WaitResult) {
    && 0 <= Applied(r) <= r.used <= |rets|
    && r.job == ApplyAll(job, rets[..Applied(r)])
    && (forall m :: 0 <= m < r.used ==> HasRunning(ApplyAll(job, rets[..m])))
    && (forall m :: 0 <= m < r.used ==> (Fatal(job, rets[m]) <==> m == Applied(r)))
    && (r.verdict == Settled ==> !HasRunning(r.job))
    && (r.verdict == StillWaiting ==> r.used == |rets| && HasRunning(r.job))
  }

  lemma {:induction false} WaitLoopCorrect(job: Job, rets: seq<WaitReturn>)
    requires Consistent(job)
    ensures WaitsForeground(job, rets, WaitLoop(job, rets))
    decreases |rets|
  {
    assert rets[..0] == [];
    if job.status == JobRunning && rets != [] && !Fatal(job, rets[0]) {
      ApplyReturnKeeps(job, rets[0]);
      WaitLoopCorrect(ApplyReturn(job, rets[0]), rets[1..]);
      WaitOneMore(job, rets, WaitLoop(ApplyReturn(job, rets[0]), rets[1..]));
    }
  }

  lemma WaitOneMore(job: Job, rets: seq<WaitReturn>, rest: WaitResult)
    requires Consistent(job) && job.status == JobRunning && rets != [] && !Fatal(job, rets[0])
    requires WaitsForeground(ApplyReturn(job, rets[0]), rets[1..], rest)
    ensures WaitsForeground(job, rets, rest.(used := rest.used + 1))
  {
    var next, r := ApplyReturn(job, rets[0]), rest.(used := rest.used + 1);
    ApplyReturnKeeps(job, rets[0]);
    forall m | 0 < m <= r.used
      ensures ApplyAll(job, rets[..m]) == ApplyAll(next, rets[1..][..m - 1])
    {
      assert rets[..m][1..] == rets[1..][..m - 1];
    }
    forall m | 0 <= m < r.used ensures HasRunning(ApplyAll(job, rets[..m])) {
      if m == 0 {
        assert rets[..0] == [];
      } else {
        assert HasRunning(ApplyAll(next, rets[1..][..m - 1]));
      }
    }
    forall m | 0 <= m < r.used ensures Fatal(job, rets[m]) <==> m == Applied(r) {
      if m > 0 {
        assert Fatal(next, rets[1..][m - 1]) == Fatal(job, rets[m]);
      }
    }
  }

  lemma {:induction false} ApplyAllSnoc(job: Job, rets: seq<WaitReturn>, last: WaitReturn)
    ensures ApplyAll(job, rets + [last]) == ApplyReturn(ApplyAll(job, rets), last)
    decreases |rets|
  {
    if rets == [] {
      assert (rets + [last])[1..] == [];
    } else {
      assert (rets + [last])[1..] == rets[1..] + [last];
      ApplyAllSnoc(ApplyReturn(job, rets[0]), rets[1..], last);
    }
  }

  /** The outcome is forced by the script: there is exactly one place to stop. */
  lemma WaitOutcomeUnique(job: Job, rets: seq<WaitReturn>, a: WaitResult, b: WaitResult)
    requires WaitsForeground(job, rets, a) && WaitsForeground(job, rets, b)
    ensures a == b
  {
    StopsFirst(job, rets, a, b);
    StopsFirst(job, rets, b, a);
    assert a.verdict == Error ==> Fatal(job, rets[a.used - 1]);
    assert b.verdict == Error ==> Fatal(job, rets[b.used - 1]);
  }

  lemma StopsFirst(job: Job, rets: seq<WaitReturn>, a: WaitResult, b: WaitResult)
    requires WaitsForeground(job, rets, a) && WaitsForeground(job, rets, b)
    ensures b.used <= a.used
  {
    var here := ApplyAll(job, rets[..a.used]);
    assert a.used < b.used ==> HasRunning(here);
    assert a.verdict == Error ==> Fatal(job, rets[Applied(a)]);
  }

  // The order of the reports about different children does not matter.

  /** The last report about a child. */
  function LastReport(rets: seq<WaitReturn>, pid: Pid): Option<WaitStatus> {
    if rets == [] then None
    else
      var last := rets[|rets| - 1];
      if last.Report? && last.pid == pid then Some(last.st) else LastReport(rets[..|rets| - 1], pid)
  }

  /** What member i becomes when these are the reports. */
  function Reported(job: Job, rets: seq<WaitReturn>, i: nat): Process
    requires i < |job.processes|
  {
    var p := job.processes[i];
    var last := LastReport(rets, p.pid);
    if last.Some? && FindProcess(job.processes, p.pid) == i then ApplyWaitStatus(p, last.value) else p
  }

  lemma LastReportNext(rets: seq<WaitReturn>, last: WaitReturn, pid: Pid)
    ensures LastReport(rets + [last], pid) ==
      if last.Report? && last.pid == pid then Some(last.st) else LastReport(rets, pid)
  {
    assert (rets + [last])[..|rets|] == rets;
  }

  lemma ReportedNext(job: Job, rets: seq<WaitReturn>, mid: Job, last: WaitReturn, i: nat)
    requires Consistent(mid) && i < |job.processes| == |mid.processes|
    requires forall k :: 0 <= k < |job.processes| ==> mid.processes[k].pid == job.processes[k].pid
    requires mid.processes[i] == Reported(job, rets, i)
    ensures i < |ApplyReturn(mid, last).processes|
    ensures ApplyReturn(mid, last).processes[i] == Reported(job, rets + [last], i)
  {
    hide LastReport, FindProcess, Aggregate;
    LastReportNext(rets, last, job.processes[i].pid);
    SameFirst(job.processes, mid.processes);
  }

  /** Each member ends as its own last report says, whatever came about the others. */
  lemma {:induction false} EachTakesItsLast(job: Job, rets: seq<WaitReturn>)
    requires Consistent(job)
    ensures var after := ApplyAll(job, rets);
      && Consistent(after) && after.id == job.id && after.pgid == job.pgid && after.modes == job.modes
      && |after.processes| == |job.processes|
      && forall i :: 0 <= i < |job.processes| ==> after.processes[i] == Reported(job, rets, i)
    decreases |rets|
  {
    if rets != [] {
      hide ApplyAll, Consistent, ApplyReturn, LastReport, FindProcess;
      var init, last := rets[..|rets| - 1], rets[|rets| - 1];
      EachTakesItsLast(job, init);
      assert init + [last] == rets;
      ApplyAllSnoc(job, init, last);
      var mid := ApplyAll(job, init);
      ApplyReturnKeeps(mid, last);
      forall i | 0 <= i < |job.processes| ensures ApplyReturn(mid, last).processes[i] == Reported(job, rets, i) {
        ReportedNext(job, init, mid, last, i);
      }
    }
  }

  /** Searching depends on the pids alone. */
  lemma SameFirst(a: seq<Process>, b: seq<Process>)
    requires |a| == |b| && forall i :: 0 <= i < |a| ==> a[i].pid == b[i].pid
    ensures forall pid :: FindProcess(a, pid) == FindProcess(b, pid)
  {
    hide FindProcess;
  }

  /** Two deliveries in which each child is last reported alike leave the same job: the order
      across children, repetitions and interrupted calls make no difference to the members, the
      job's status or its exit status. */
  lemma OrderIsIrrelevant(job: Job, a: seq<WaitReturn>, b: seq<WaitReturn>)
    requires Consistent(job) && forall pid :: LastReport(a, pid) == LastReport(b, pid)
    ensures ApplyAll(job, a) == ApplyAll(job, b)
  {
    EachTakesItsLast(job, a);
    EachTakesItsLast(job, b);
    assert ApplyAll(job, a).processes == ApplyAll(job, b).processes;
  }

  /** So two waits on a job that read such deliveries and did not fail end alike. */
  lemma WaitsEndAlike(job: Job, a: seq<WaitReturn>, b: seq<WaitReturn>)
    requires Consistent(job)
    requires var r, q := WaitLoop(job, a), WaitLoop(job, b);
      && r.verdict != Error && q.verdict != Error && r.used <= |a| && q.used <= |b|
      && forall pid :: LastReport(a[..r.used], pid) == LastReport(b[..q.used], pid)
    ensures WaitLoop(job, a).job == WaitLoop(job, b).job && WaitLoop(job, a).verdict == WaitLoop(job, b).verdict
    ensures ExitStatus(WaitLoop(job, a).job) == ExitStatus(WaitLoop(job, b).job)
  {
    WaitLoopCorrect(job, a);
    WaitLoopCorrect(job, b);
    var r, q := WaitLoop(job, a), WaitLoop(job, b);
    hide WaitLoop, ApplyAll;
    OrderIsIrrelevant(job, a[..r.used], b[..q.used]);
  }

  /** The exit status of a finished job, as `$?` sees it. */
  function EndingStatus(e: Ending): (r: int)
    ensures 0 <= r <= 255 && (e.Exited? ==> r as ExitCode == e.code) && (e.Signaled? ==> r - 128 == e.sig as int)
  {
    match e
    case Exited(code) => code as int
    case Signaled(sig) => 128 + sig as int
  }

  function ExitStatus(job: Job): Option<int> {
    if job.processes == [] then None
    else
      match job.processes[|job.processes| - 1].wait
      case Some(Ended(e)) => Some(EndingStatus(e))
      case _ => None
  }

  /** `process_find`. */
  method Find(ps: seq<Process>, pid: Pid) returns (i: nat)
    ensures i == FindProcess(ps, pid)
  {
    i := 0;
    while i < |ps| && ps[i].pid != pid
      invariant i <= |ps|
      invariant forall k :: 0 <= k < i ==> ps[k].pid != pid
    {
      i := i + 1;
    }
  }

  /** `job_update_status`: one pass over the members. */
  method Updated(job: Job) returns (r: Job)
    ensures r == UpdateStatus(job)
  {
    var ps := job.processes;
    if ps == [] {
      return job;
    }
    var hasRunning, hasStopped := false, false;
    for i := 0 to |ps|
      invariant hasRunning <==> exists k :: 0 <= k < i && ps[k].status == ProcessRunning
      invariant hasStopped <==> exists k :: 0 <= k < i && ps[k].status == ProcessStopped
    {
      if ps[i].status == ProcessRunning {
        hasRunning := true;
      } else if ps[i].status == ProcessStopped {
        hasStopped := true;
      }
    }
    r := job.(status := if hasRunning then JobRunning else if hasStopped then JobStopped else JobDone);
  }

  /** The loop of `job_wait_foreground`, over every script of `waitpid` returns. */
  method WaitOn(job: Job, rets: seq<WaitReturn>) returns (r: WaitResult)
    ensures r == WaitLoop(job, rets)
  {
    var cur, used := job, 0;
    while cur.status == JobRunning
      invariant used <= |rets|
      invariant WaitLoop(job, rets) == (var rest := WaitLoop(cur, rets[used..]); rest.(used := used + rest.used))
      decreases |rets| - used
    {
      if used == |rets| {
        return WaitResult(cur, used, StillWaiting);
      }
      assert rets[used..][1..] == rets[used + 1..];
      match rets[used] {
        case Interrupted =>
        case Failed =>
          return WaitResult(cur, used + 1, Error);
        case Report(pid, st) =>
          var i := Find(cur.processes, pid);
          assert Member(cur, pid) <==> i < |cur.processes|;
          if i == |cur.processes| {
            return WaitResult(cur, used + 1, Error);
          }
          cur := Updated(cur.(processes := cur.processes[i := ApplyWaitStatus(cur.processes[i], st)]));
      }
      used := used + 1;
    }
    r := WaitResult(cur, used, Settled);
  }

  // ---------------------------------------------------------------- the other operations

  function ContinueProcess(p: Process): Process {
    if p.status == ProcessStopped then p.(status := ProcessRunning) else p
  }

  function ContinueProcesses(ps: seq<Process>): seq<Process> {
    seq(|ps|, i requires 0 <= i < |ps| => ContinueProcess(ps[i]))
  }

  function Continue(job: Job): Job {
    UpdateStatus(job.(processes := ContinueProcesses(job.processes)))
  }

  /** One non-blocking `waitpid(pid)` of the reaper. */
  datatype Poll = NoChange | PollInterrupted | NoChild | PollFailed | PollReport(st: WaitStatus)

  function ReapProcess(p: Process, poll: Poll): Process {
    if p.status == ProcessDone then p
    else
      match poll
      case NoChild => p.(status := ProcessDone)
      case PollReport(st) => ApplyWaitStatus(p, st)
      case _ => p
  }

  function ReapProcesses(ps: seq<Process>, poll: Pid -> Poll): seq<Process> {
    seq(|ps|, i requires 0 <= i < |ps| => ReapProcess(ps[i], poll(ps[i].pid)))
  }

  function ReapJob(job: Job, poll: Pid -> Poll): Job {
    UpdateStatus(job.(processes := ReapProcesses(job.processes, poll)))
  }

  function ReapAll(jobs: seq<Job>, poll: Pid -> Poll): seq<Job> {
    seq(|jobs|, i requires 0 <= i < |jobs| => ReapJob(jobs[i], poll))
  }

  predicate Active(job: Job) {
    job.status != JobDone
  }

  function CountActive(jobs: seq<Job>): nat {
    if jobs == [] then 0
    else (if Active(jobs[0]) then 1 else 0) + CountActive(jobs[1..])
  }

  function WithoutDone(jobs: seq<Job>): seq<Job> {
    if jobs == [] then []
    else (if jobs[0].status == JobDone then [] else [jobs[0]]) + WithoutDone(jobs[1..])
  }

  /** The first job of the group, or |jobs|. */
  function FindJob(jobs: seq<Job>, pgid: Pid): (i: nat)
    ensures i <= |jobs|
    ensures i < |jobs| ==> jobs[i].pgid == pgid
    ensures forall k :: 0 <= k < i ==> jobs[k].pgid != pgid
  {
    if jobs == [] then 0
    else if jobs[0].pgid == pgid then 0
    else
      var r := FindJob(jobs[1..], pgid);
      assert forall k :: 1 <= k < 1 + r ==> jobs[k].pgid == jobs[1..][k - 1].pgid;
      1 + r
  }

  function WithoutGroup(jobs: seq<Job>, pgid: Pid): seq<Job> {
    var i := FindJob(jobs, pgid);
    if i == |jobs| then jobs else jobs[..i] + jobs[i + 1..]
  }

  function FreshJob(id: int, pgid: Pid): Job {
    Job(id, pgid, JobRunning, [], None)
  }

  function FreshProcess(pid: Pid): Process {
    Process(pid, ProcessRunning, None)
  }

  // ---------------------------------------------------------------- what they amount to

  lemma AggregateMeans(ps: seq<Process>)
    ensures Aggregate(ps) == JobDone <==> forall i :: 0 <= i < |ps| ==> ps[i].status == ProcessDone
    ensures Aggregate(ps) == JobRunning <==> exists i :: 0 <= i < |ps| && ps[i].status == ProcessRunning
    ensures Aggregate(ps) == JobStopped <==>
      && (forall i :: 0 <= i < |ps| ==> ps[i].status != ProcessRunning)
      && !(forall i :: 0 <= i < |ps| ==> ps[i].status == ProcessDone)
  {
    if Aggregate(ps) == JobDone {
      forall i | 0 <= i < |ps| ensures ps[i].status == ProcessDone {
        assert ps[i].status != ProcessRunning && ps[i].status != ProcessStopped;
      }
    }
  }

  /** Continuing a job that has not ended makes it run: its stopped members run, the others are as
      they were. */
  lemma ContinueMeans(job: Job)
    requires Consistent(job)
    ensures var after := Continue(job);
      && |after.processes| == |job.processes|
      && (forall i :: 0 <= i < |job.processes| ==>
            var p, q := job.processes[i], after.processes[i];
            && q.pid == p.pid && q.wait == p.wait
            && q.status == if p.status == ProcessStopped then ProcessRunning else p.status)
      && after.status == (if job.status == JobDone then JobDone else JobRunning)
      && after.id == job.id && after.pgid == job.pgid && after.modes == job.modes
  {
    var after := Continue(job);
    assert after.processes == ContinueProcesses(job.processes);
    hide Continue;
    AggregateMeans(job.processes);
    AggregateMeans(after.processes);
    if i :| 0 <= i < |job.processes| && job.processes[i].status != ProcessDone {
      assert after.processes[i].status == ProcessRunning;
    }
  }

  /** The active jobs are those a cleanup leaves. */
  lemma {:induction false} CountIsKept(jobs: seq<Job>)
    ensures CountActive(jobs) == |WithoutDone(jobs)|
  {
    if jobs != [] {
      CountIsKept(jobs[1..]);
    }
  }

  function OneFurther(at: seq<nat>): (later: seq<nat>)
    ensures |later| == |at| && forall k :: 0 <= k < |at| ==> later[k] == at[k] + 1
  {
    seq(|at|, k requires 0 <= k < |at| => at[k] + 1)
  }

  /** The places of the jobs that are not DONE. */
  function KeptAt(jobs: seq<Job>): seq<nat> {
    if jobs == [] then [] else (if jobs[0].status == JobDone then [] else [0]) + OneFurther(KeptAt(jobs[1..]))
  }

  predicate Increasing(at: seq<nat>) {
    forall i, k :: 0 <= i < k < |at| ==> at[i] < at[k]
  }

  lemma {:induction false} KeptAtIncreases(jobs: seq<Job>)
    ensures Increasing(KeptAt(jobs))
  {
    if jobs != [] {
      KeptAtIncreases(jobs[1..]);
    }
  }

  lemma {:induction false} KeptAtThePlaces(jobs: seq<Job>, j: nat)
    requires j < |jobs|
    ensures j in KeptAt(jobs) <==> jobs[j].status != JobDone
  {
    var rest := KeptAt(jobs[1..]);
    var later := OneFurther(rest);
    assert j in KeptAt(jobs) <==> (j == 0 && jobs[0].status != JobDone) || j in later;
    if j > 0 {
      KeptAtThePlaces(jobs[1..], j - 1);
      OneFurtherHas(rest, j);
    } else {
      assert 0 !in later;
    }
  }

  lemma OneFurtherHas(at: seq<nat>, j: nat)
    requires j > 0
    ensures j in OneFurther(at) <==> j - 1 in at
  {
    var later := OneFurther(at);
    if j in later {
      var k :| 0 <= k < |later| && later[k] == j;
      assert at[k] == j - 1;
    }
    if j - 1 in at {
      var k :| 0 <= k < |at| && at[k] == j - 1;
      assert later[k] == j;
    }
  }

  /** Exactly the jobs that are not DONE are left, in their order. */
  lemma {:induction false} WithoutDoneInOrder(jobs: seq<Job>)
    ensures |WithoutDone(jobs)| == |KeptAt(jobs)| && Increasing(KeptAt(jobs))
    ensures forall k :: 0 <= k < |KeptAt(jobs)| ==>
      KeptAt(jobs)[k] < |jobs| && WithoutDone(jobs)[k] == jobs[KeptAt(jobs)[k]]
    ensures forall j: nat :: j < |jobs| ==> (j in KeptAt(jobs) <==> jobs[j].status != JobDone)
  {
    KeptAtIncreases(jobs);
    forall j: nat | j < |jobs| ensures j in KeptAt(jobs) <==> jobs[j].status != JobDone {
      KeptAtThePlaces(jobs, j);
    }
    KeptAtFits(jobs);
  }

  lemma {:induction false} KeptAtFits(jobs: seq<Job>)
    ensures |WithoutDone(jobs)| == |KeptAt(jobs)|
    ensures forall k :: 0 <= k < |KeptAt(jobs)| ==>
      KeptAt(jobs)[k] < |jobs| && WithoutDone(jobs)[k] == jobs[KeptAt(jobs)[k]]
  {
    if jobs != [] {
      KeptAtFits(jobs[1..]);
    }
  }

  // ---------------------------------------------------------------- the table itself

  class JobManager {
    var jobs: seq<Job>
    var nextId: int

    constructor ()
      ensures jobs == [] && nextId == 1
    {
      jobs, nextId := [], 1;
    }

    /** `job_add`: the new job goes to the front; `None` when memory runs out. */
    method Add(pgid: int, memory: bool) returns (added: bool)
      modifies this
      ensures added == (pgid > 0 && memory)
      ensures added ==> jobs == [FreshJob(old(nextId), pgid)] + old(jobs) && nextId == old(nextId) + 1
      ensures !added ==> jobs == old(jobs) && nextId == old(nextId)
    {
      if pgid <= 0 || !memory {
        return false;
      }
      jobs := [FreshJob(nextId, pgid)] + jobs;
      nextId := nextId + 1;
      added := true;
    }

    /** `process_add`: append a running member; the job status is not recomputed. */
    method AddProcess(j: nat, pid: int, memory: bool) returns (added: bool)
      requires j < |jobs|
      modifies this`jobs
      ensures added == (pid > 0 && memory)
      ensures jobs == if added
                      then old(jobs)[j := old(jobs)[j].(processes := old(jobs)[j].processes + [FreshProcess(pid)])]
                      else old(jobs)
    {
      if pid <= 0 || !memory {
        return false;
      }
      jobs := jobs[j := jobs[j].(processes := jobs[j].processes + [FreshProcess(pid)])];
      added := true;
    }

    /** `job_wait_foreground` on a job of the table. No other job changes. */
    method WaitForeground(j: nat, rets: seq<WaitReturn>) returns (verdict: Verdict, used: nat)
      requires j < |jobs|
      modifies this`jobs
      ensures |jobs| == |old(jobs)| && jobs == old(jobs)[j := jobs[j]]
      ensures old(jobs)[j].pgid > 0 ==> WaitResult(jobs[j], used, verdict) == WaitLoop(old(jobs)[j], rets)
      ensures old(jobs)[j].pgid == 0 ==> jobs == old(jobs) && used == 0 && verdict == Error
    {
      if jobs[j].pgid <= 0 {
        return Error, 0;
      }
      var r := WaitOn(jobs[j], rets);
      jobs := jobs[j := r.job];
      return r.verdict, r.used;
    }

    /** `job_exit_status`. */
    method ExitStatusOf(j: nat) returns (status: Option<int>)
      requires j < |jobs|
      ensures status == ExitStatus(jobs[j])
    {
      var ps := jobs[j].processes;
      if ps == [] {
        return None;
      }
      var i := 0;
      while i + 1 < |ps|
        invariant i < |ps|
      {
        i := i + 1;
      }
      match ps[i].wait {
        case Some(Ended(e)) => status := Some(EndingStatus(e));
        case _ => status := None;
      }
    }

    /** `job_continue`; `sent` is whether the kernel took the SIGCONT. */
    method ContinueJob(j: nat, sent: bool) returns (ok: bool)
      requires j < |jobs|
      modifies this`jobs
      ensures ok == (old(jobs)[j].pgid > 0 && old(jobs)[j].status == JobStopped && sent)
      ensures jobs == if ok then old(jobs)[j := Continue(old(jobs)[j])] else old(jobs)
    {
      if jobs[j].pgid <= 0 || jobs[j].status != JobStopped || !sent {
        return false;
      }
      var ps := jobs[j].processes;
      for i := 0 to |ps|
        invariant |ps| == |old(jobs)[j].processes|
        invariant forall k :: i <= k < |ps| ==> ps[k] == old(jobs)[j].processes[k]
        invariant forall k :: 0 <= k < i ==>
          ps[k] == ContinueProcess(old(jobs)[j].processes[k])
      {
        if ps[i].status == ProcessStopped {
          ps := ps[i := ps[i].(status := ProcessRunning)];
        }
      }
      assert ps == ContinueProcesses(jobs[j].processes);
      var job := Updated(jobs[j].(processes := ps));
      jobs := jobs[j := job];
      ok := true;
    }

    /** The inner loop of `job_reap`. */
    method ReapOne(j: nat, poll: Pid -> Poll)
      requires j < |jobs|
      modifies this`jobs
      ensures jobs == old(jobs)[j := ReapJob(old(jobs)[j], poll)]
    {
      var ps := jobs[j].processes;
      for i := 0 to |ps|
        invariant |ps| == |old(jobs)[j].processes|
        invariant forall k :: i <= k < |ps| ==> ps[k] == old(jobs)[j].processes[k]
        invariant forall k :: 0 <= k < i ==>
          ps[k] == ReapProcess(old(jobs)[j].processes[k], poll(old(jobs)[j].processes[k].pid))
      {
        if ps[i].status != ProcessDone {
          match poll(ps[i].pid) {
            case NoChild => ps := ps[i := ps[i].(status := ProcessDone)];
            case PollReport(st) => ps := ps[i := ApplyWaitStatus(ps[i], st)];
            case _ =>
          }
        }
      }
      assert ps == ReapProcesses(jobs[j].processes, poll);
      var job := Updated(jobs[j].(processes := ps));
      jobs := jobs[j := job];
    }

    /** `job_reap`. */
    method Reap(poll: Pid -> Poll)
      modifies this`jobs
      ensures jobs == ReapAll(old(jobs), poll)
    {
      var j := 0;
      while j < |jobs|
        invariant |jobs| == |old(jobs)| && j <= |jobs|
        invariant forall k :: 0 <= k < j ==> jobs[k] == ReapJob(old(jobs)[k], poll)
        invariant forall k :: j <= k < |jobs| ==> jobs[k] == old(jobs)[k]
      {
        ReapOne(j, poll);
        j := j + 1;
      }
    }

    /** `job_cleanup_done`. */
    method CleanupDone()
      modifies this`jobs
      ensures jobs == WithoutDone(old(jobs))
    {
      var kept: seq<Job>, i := [], 0;
      while i < |jobs|
        invariant i <= |jobs|
        invariant kept + WithoutDone(jobs[i..]) == WithoutDone(jobs)
      {
        assert jobs[i..][1..] == jobs[i + 1..];
        if jobs[i].status != JobDone {
          kept := kept + [jobs[i]];
        }
        i := i + 1;
      }
      assert jobs[i..] == [];
      jobs := kept;
    }

    /** `job_remove`. */
    method Remove(pgid: Pid)
      modifies this`jobs
      ensures jobs == if pgid == 0 then old(jobs) else WithoutGroup(old(jobs), pgid)
    {
      if pgid == 0 {
        return;
      }
      var i := 0;
      while i < |jobs| && jobs[i].pgid != pgid
        invariant i <= |jobs|
        invariant forall k :: 0 <= k < i ==> jobs[k].pgid != pgid
      {
        i := i + 1;
      }
      if i < |jobs| {
        jobs := jobs[..i] + jobs[i + 1..];
      }
    }

    /** `job_count_active`. */
    method Count() returns (n: nat)
      ensures n == CountActive(jobs)
    {
      n := 0;
      var i := 0;
      while i < |jobs|
        invariant i <= |jobs|
        invariant n + CountActive(jobs[i..]) == CountActive(jobs)
      {
        assert jobs[i..][1..] == jobs[i + 1..];
        if Active(jobs[i]) {
          n := n + 1;
        }
        i := i + 1;
      }
    }
  }
}

/** The job table running against the kernel: every way src/job.c and its callers
    change the table, together with everything the children may do meanwhile. */
module JobControl {
  import opened Options
  import opened Kernel
  import opened Jobs

  datatype World = World(kids: map<Pid, RunState>, jobs: seq<Job>)

  /** The process status that describes a kernel state exactly. */
  function View(s: RunState): ProcessStatus {
    match s
    case Running(_) => ProcessRunning
    case Stopped(_, _) => ProcessStopped
    case Zombie(_) => ProcessDone
    case Reaped(_) => ProcessDone
  }

  /** A record is behind the kernel only while a report is waiting to be read. */
  predicate Tracks(p: Process, s: RunState) {
    && (p.status == ProcessDone <==> s.Reaped?)
    && (s.Reaped? ==> p.wait == Some(Ended(s.end)))
    && (!Pending(s) ==> p.status == View(s))
  }

  predicate DistinctPids(job: Job) {
    forall i, k :: 0 <= i < k < |job.processes| ==> job.processes[i].pid != job.processes[k].pid
  }

  predicate JobTracks(job: Job, kids: map<Pid, RunState>) {
    && Consistent(job)
    && job.pgid == job.processes[0].pid > 0
    && DistinctPids(job)
    && forall i :: 0 <= i < |job.processes| ==>
         job.processes[i].pid in kids && Tracks(job.processes[i], kids[job.processes[i].pid])
  }

  predicate Disjoint(a: Job, b: Job) {
    forall i, k :: 0 <= i < |a.processes| && 0 <= k < |b.processes| ==>
      a.processes[i].pid != b.processes[k].pid
  }

  predicate Inv(w: World) {
    && (forall j :: 0 <= j < |w.jobs| ==> JobTracks(w.jobs[j], w.kids))
    && AllDisjoint(w.jobs)
  }

  predicate EvolvesAll(kids: map<Pid, RunState>, kids': map<Pid, RunState>) {
    kids'.Keys == kids.Keys && forall p :: p in kids ==> Evolves(kids[p], kids'[p])
  }

  // ---------------------------------------------------------------- steps

  datatype Step =
    | Env                                        // the children and other processes
    | Launch(id: int, pids: seq<Pid>)            // check_job_limit, fork, job_add, process_add
    | Wait(j: nat, rets: seq<WaitReturn>)        // job_wait_foreground
    | Reap(poll: Pid -> Poll)                    // job_reap
    | Resume(j: nat)                             // job_continue
    | Cleanup                                    // job_cleanup_done
    | Forget(j: nat)                             // rollback_* or a finished job, then job_remove

  function LaunchedJob(id: int, pids: seq<Pid>): Job
    requires pids != []
  {
    Job(id, pids[0], JobRunning, seq(|pids|, i requires 0 <= i < |pids| => FreshProcess(pids[i])), None)
  }

  /** The kernel may return this from `waitpid(-pgid, WUNTRACED)` of the job's group. */
  predicate MayReturn(kids: map<Pid, RunState>, job: Job, ret: WaitReturn) {
    ret.Report? ==>
      Member(job, ret.pid) && ret.pid in kids && ReportOf(kids[ret.pid], false) == Some(ret.st)
  }

  function AfterReturn(kids: map<Pid, RunState>, ret: WaitReturn): map<Pid, RunState> {
    if ret.Report? && ret.pid in kids then kids[ret.pid := AfterReport(kids[ret.pid], false)] else kids
  }

  /** The returns of `rets` can happen in this order, whatever the children do in between. */
  ghost predicate Delivered(kids: map<Pid, RunState>, job: Job, rets: seq<WaitReturn>, kids': map<Pid, RunState>)
    decreases |rets|
  {
    if rets == [] then EvolvesAll(kids, kids')
    else exists mid ::
      && EvolvesAll(kids, mid)
      && MayReturn(mid, job, rets[0])
      && Delivered(AfterReturn(mid, rets[0]), job, rets[1..], kids')
  }

  /** The kernel may answer a WNOHANG poll of a child in state `s` like this. */
  predicate MayAnswer(s: RunState, poll: Poll) {
    match poll
    case NoChange => ReportOf(s, true) == None && !s.Reaped?
    case NoChild => s.Reaped?
    case PollReport(st) => ReportOf(s, true) == Some(st)
    case _ => true
  }

  function AfterPoll(s: RunState, poll: Poll): RunState {
    if poll.PollReport? then AfterReport(s, true) else s
  }

  ghost predicate Polled(s: RunState, poll: Poll, s': RunState) {
    exists at :: Evolves(s, at) && MayAnswer(at, poll) && Evolves(AfterPoll(at, poll), s')
  }

  predicate Recorded(jobs: seq<Job>, pid: Pid) {
    exists j :: 0 <= j < |jobs| && Member(jobs[j], pid)
  }

  /** A kernel state after one `job_reap`: each recorded child was polled at some moment. */
  ghost predicate PolledAll(w: World, poll: Pid -> Poll, kids': map<Pid, RunState>) {
    && kids'.Keys == w.kids.Keys
    && forall p :: p in w.kids ==>
         if Recorded(w.jobs, p) && !w.kids[p].Reaped?
         then Polled(w.kids[p], poll(p), kids'[p])
         else Evolves(w.kids[p], kids'[p])
  }

  function Sigcont(kids: map<Pid, RunState>, job: Job): map<Pid, RunState> {
    map p | p in kids :: if Member(job, p) then AfterSigcont(kids[p]) else kids[p]
  }

  ghost predicate LaunchesFresh(w: World, pids: seq<Pid>, kids': map<Pid, RunState>) {
    && pids != []
    && (forall i :: 0 <= i < |pids| ==> pids[i] > 0 && pids[i] !in w.kids && pids[i] in kids')
    && (forall i, k :: 0 <= i < k < |pids| ==> pids[i] != pids[k])
    && w.kids.Keys <= kids'.Keys
    && (forall p :: p in w.kids ==> Evolves(w.kids[p], kids'[p]))
    && (forall i :: 0 <= i < |pids| ==> Evolves(Running(false), kids'[pids[i]]))
  }

  ghost predicate Next(w: World, step: Step, w': World, maxJob: int) {
    match step
    case Env =>
      w'.jobs == w.jobs && EvolvesAll(w.kids, w'.kids)
    case Launch(id, pids) =>
      && CountActive(w.jobs) < maxJob
      && LaunchesFresh(w, pids, w'.kids)
      && w'.jobs == [LaunchedJob(id, pids)] + w.jobs
    case Wait(j, rets) =>
      && j < |w.jobs|
      && Delivered(w.kids, w.jobs[j], rets, w'.kids)
      && WaitLoop(w.jobs[j], rets).used == |rets|
      && w'.jobs == w.jobs[j := WaitLoop(w.jobs[j], rets).job]
    case Reap(poll) =>
      PolledAll(w, poll, w'.kids) && w'.jobs == ReapAll(w.jobs, poll)
    case Resume(j) =>
      && j < |w.jobs| && w.jobs[j].status == JobStopped
      && w'.jobs == w.jobs[j := Continue(w.jobs[j])]
      && exists mid :: EvolvesAll(w.kids, mid) && EvolvesAll(Sigcont(mid, w.jobs[j]), w'.kids)
    case Cleanup =>
      w'.jobs == WithoutDone(w.jobs) && EvolvesAll(w.kids, w'.kids)
    case Forget(j) =>
      && j < |w.jobs|
      && w'.jobs == WithoutGroup(w.jobs, w.jobs[j].pgid)
      && w'.kids.Keys == w.kids.Keys
      && (forall p :: p in w.kids ==>
            if Member(w.jobs[j], p) && !w.kids[p].Reaped? then w'.kids[p].Reaped?
            else Evolves(w.kids[p], w'.kids[p]))
  }

  // ---------------------------------------------------------------- one step keeps the invariant

  /** The same job with the same members, whatever their state. */
  predicate SamePids(a: Job, b: Job) {
    && a.id == b.id && a.pgid == b.pgid && a.modes == b.modes
    && |a.processes| == |b.processes|
    && forall i :: 0 <= i < |a.processes| ==> a.processes[i].pid == b.processes[i].pid
  }

  lemma SamePidsMembers(a: Job, b: Job)
    requires SamePids(a, b)
    ensures forall p :: Member(a, p) <==> Member(b, p)
  {
  }

  predicate AllDisjoint(jobs: seq<Job>) {
    forall j, k :: 0 <= j < k < |jobs| ==> Disjoint(jobs[j], jobs[k])
  }

  lemma DisjointSame(a: Job, a': Job, b: Job, b': Job)
    requires SamePids(a, a') && SamePids(b, b') && Disjoint(a, b)
    ensures Disjoint(a', b')
  {
  }

  lemma AllDisjointSame(jobs: seq<Job>, jobs': seq<Job>)
    requires AllDisjoint(jobs) && |jobs'| == |jobs|
    requires forall j :: 0 <= j < |jobs| ==> SamePids(jobs[j], jobs'[j])
    ensures AllDisjoint(jobs')
  {
    hide Disjoint, SamePids;
    forall j, k | 0 <= j < k < |jobs'| ensures Disjoint(jobs'[j], jobs'[k]) {
      DisjointSame(jobs[j], jobs'[j], jobs[k], jobs'[k]);
    }
  }

  /** Two different jobs share no member. */
  lemma NoSharedMember(jobs: seq<Job>, j: nat, k: nat, p: Pid)
    requires AllDisjoint(jobs) && j < |jobs| && k < |jobs| && j != k && Member(jobs[k], p)
    ensures !Member(jobs[j], p)
  {
  }

  lemma JobTracksEvolves(job: Job, kids: map<Pid, RunState>, kids': map<Pid, RunState>)
    requires JobTracks(job, kids)
    requires kids.Keys <= kids'.Keys
    requires forall p :: p in kids && Member(job, p) ==> Evolves(kids[p], kids'[p])
    ensures JobTracks(job, kids')
  {
  }

  lemma EnvKeeps(w: World, kids': map<Pid, RunState>)
    requires Inv(w) && EvolvesAll(w.kids, kids')
    ensures Inv(World(kids', w.jobs))
  {
  }

  lemma LaunchKeeps(w: World, id: int, pids: seq<Pid>, kids': map<Pid, RunState>)
    requires Inv(w) && LaunchesFresh(w, pids, kids')
    ensures Inv(World(kids', [LaunchedJob(id, pids)] + w.jobs))
  {
  }

  /** Replacing one job by one with the same members keeps the jobs apart. */
  lemma ReplaceKeeps(w: World, j: nat, job: Job, kids': map<Pid, RunState>)
    requires Inv(w) && j < |w.jobs| && SamePids(w.jobs[j], job) && JobTracks(job, kids')
    requires w.kids.Keys <= kids'.Keys
    requires forall p :: p in w.kids && !Member(job, p) ==> Evolves(w.kids[p], kids'[p])
    ensures Inv(World(kids', w.jobs[j := job]))
  {
    hide JobTracks, Disjoint, SamePids, Member;
    var jobs' := w.jobs[j := job];
    SamePidsMembers(w.jobs[j], job);
    forall k | 0 <= k < |jobs'| ensures JobTracks(jobs'[k], kids') {
      if k != j {
        forall p | p in w.kids && Member(w.jobs[k], p) ensures Evolves(w.kids[p], kids'[p]) {
          NoSharedMember(w.jobs, j, k, p);
        }
        JobTracksEvolves(w.jobs[k], w.kids, kids');
      }
    }
    forall k | 0 <= k < |jobs'| ensures SamePids(w.jobs[k], jobs'[k]) {
      SamePidsReflexive(w.jobs[k]);
    }
    AllDisjointSame(w.jobs, jobs');
  }

  lemma SamePidsReflexive(a: Job)
    ensures SamePids(a, a)
  {
  }

  lemma ReportKeeps(w: World, j: nat, ret: WaitReturn)
    requires Inv(w) && j < |w.jobs| && MayReturn(w.kids, w.jobs[j], ret)
    ensures Inv(World(AfterReturn(w.kids, ret), w.jobs[j := ApplyReturn(w.jobs[j], ret)]))
  {
    var job, kids' := w.jobs[j], AfterReturn(w.kids, ret);
    var job' := ApplyReturn(job, ret);
    ApplyReturnKeeps(job, ret);
    if ret.Report? {
      forall i | 0 <= i < |job.processes| ensures Tracks(job'.processes[i], kids'[job.processes[i].pid]) {
        assert Tracks(job.processes[i], w.kids[job.processes[i].pid]);
      }
    }
    ReplaceKeeps(w, j, job', kids');
  }

  lemma {:induction false} DeliveredKeeps(w: World, j: nat, job0: Job, rets: seq<WaitReturn>, kids': map<Pid, RunState>)
    requires Inv(w) && j < |w.jobs| && SamePids(job0, w.jobs[j])
    requires Delivered(w.kids, job0, rets, kids')
    ensures Inv(World(kids', w.jobs[j := ApplyAll(w.jobs[j], rets)]))
    decreases |rets|
  {
    if rets == [] {
      EnvKeeps(w, kids');
      assert w.jobs[j := w.jobs[j]] == w.jobs;
    } else {
      var mid :| && EvolvesAll(w.kids, mid) && MayReturn(mid, job0, rets[0])
                 && Delivered(AfterReturn(mid, rets[0]), job0, rets[1..], kids');
      EnvKeeps(w, mid);
      assert forall p :: Member(job0, p) ==> Member(w.jobs[j], p);
      ReportKeeps(World(mid, w.jobs), j, rets[0]);
      ApplyReturnKeeps(w.jobs[j], rets[0]);
      var next := World(AfterReturn(mid, rets[0]), w.jobs[j := ApplyReturn(w.jobs[j], rets[0])]);
      DeliveredKeeps(next, j, job0, rets[1..], kids');
      assert next.jobs[j := ApplyAll(next.jobs[j], rets[1..])] == w.jobs[j := ApplyAll(w.jobs[j], rets)];
    }
  }

  lemma {:induction false} DeliveredMembers(kids: map<Pid, RunState>, job: Job, rets: seq<WaitReturn>,
                                            kids': map<Pid, RunState>, m: nat)
    requires Delivered(kids, job, rets, kids') && m < |rets| && rets[m].Report?
    ensures Member(job, rets[m].pid)
    decreases |rets|
  {
    var mid :| && EvolvesAll(kids, mid) && MayReturn(mid, job, rets[0])
               && Delivered(AfterReturn(mid, rets[0]), job, rets[1..], kids');
    if m > 0 {
      DeliveredMembers(AfterReturn(mid, rets[0]), job, rets[1..], kids', m - 1);
    }
  }

  /** A wait that read the whole script applied the whole script. */
  lemma WaitAppliesAll(kids: map<Pid, RunState>, job: Job, rets: seq<WaitReturn>, kids': map<Pid, RunState>)
    requires Consistent(job) && Delivered(kids, job, rets, kids') && WaitLoop(job, rets).used == |rets|
    ensures WaitLoop(job, rets).job == ApplyAll(job, rets)
  {
    WaitLoopCorrect(job, rets);
    var r := WaitLoop(job, rets);
    if r.verdict == Error {
      var last := rets[|rets| - 1];
      assert Fatal(job, last);
      if last.Report? {
        DeliveredMembers(kids, job, rets, kids', |rets| - 1);
      }
      ApplyAllSnoc(job, rets[..|rets| - 1], last);
      assert rets[..|rets| - 1] + [last] == rets;
    } else {
      assert rets[..|rets|] == rets;
    }
  }

  lemma WaitKeeps(w: World, j: nat, rets: seq<WaitReturn>, w': World, maxJob: int)
    requires Inv(w) && Next(w, Wait(j, rets), w', maxJob)
    ensures Inv(w')
  {
    WaitAppliesAll(w.kids, w.jobs[j], rets, w'.kids);
    DeliveredKeeps(w, j, w.jobs[j], rets, w'.kids);
  }

  lemma PollTracks(p: Process, s: RunState, poll: Poll, s': RunState)
    requires Tracks(p, s) && if s.Reaped? then s' == s else Polled(s, poll, s')
    ensures Tracks(ReapProcess(p, poll), s')
  {
  }

  lemma ReapJobShape(job: Job, poll: Pid -> Poll)
    requires Consistent(job) && DistinctPids(job)
    ensures var job' := ReapJob(job, poll);
      && job'.processes == ReapProcesses(job.processes, poll)
      && Consistent(job') && DistinctPids(job') && SamePids(job, job')
  {
    var ps := ReapProcesses(job.processes, poll);
    assert |ps| == |job.processes| > 0;
    forall i | 0 <= i < |ps| ensures ps[i].pid == job.processes[i].pid {
      assert ps[i] == ReapProcess(job.processes[i], poll(job.processes[i].pid));
    }
    var job' := ReapJob(job, poll);
    assert job' == job.(processes := ps, status := Aggregate(ps));
  }

  lemma ReapJobTracks(job: Job, kids: map<Pid, RunState>, poll: Pid -> Poll, kids': map<Pid, RunState>)
    requires JobTracks(job, kids) && kids'.Keys == kids.Keys
    requires forall p :: p in kids && Member(job, p) ==>
      if kids[p].Reaped? then kids'[p] == kids[p] else Polled(kids[p], poll(p), kids'[p])
    ensures JobTracks(ReapJob(job, poll), kids') && SamePids(job, ReapJob(job, poll))
  {
    ReapJobShape(job, poll);
    forall i | 0 <= i < |job.processes|
      ensures Tracks(ReapProcess(job.processes[i], poll(job.processes[i].pid)), kids'[job.processes[i].pid])
    {
      var p := job.processes[i];
      assert Member(job, p.pid);
      PollTracks(p, kids[p.pid], poll(p.pid), kids'[p.pid]);
    }
  }

  lemma ReapKeeps(w: World, poll: Pid -> Poll, kids': map<Pid, RunState>)
    requires Inv(w) && PolledAll(w, poll, kids')
    ensures Inv(World(kids', ReapAll(w.jobs, poll)))
  {
    hide JobTracks, Disjoint, SamePids, ReapJob;
    var jobs' := ReapAll(w.jobs, poll);
    forall j | 0 <= j < |jobs'| ensures JobTracks(jobs'[j], kids') && SamePids(w.jobs[j], jobs'[j]) {
      assert forall p :: Member(w.jobs[j], p) ==> Recorded(w.jobs, p);
      ReapJobTracks(w.jobs[j], w.kids, poll, kids');
    }
    AllDisjointSame(w.jobs, jobs');
  }

  lemma ResumeKeeps(w: World, j: nat, mid: map<Pid, RunState>, kids': map<Pid, RunState>)
    requires Inv(w) && j < |w.jobs|
    requires EvolvesAll(w.kids, mid) && EvolvesAll(Sigcont(mid, w.jobs[j]), kids')
    ensures Inv(World(kids', w.jobs[j := Continue(w.jobs[j])]))
  {
    EnvKeeps(w, mid);
    var job, job', woken := w.jobs[j], Continue(w.jobs[j]), Sigcont(mid, w.jobs[j]);
    assert JobTracks(job, mid);
    forall i | 0 <= i < |job.processes| ensures Tracks(job'.processes[i], woken[job.processes[i].pid]) {
      assert Tracks(job.processes[i], mid[job.processes[i].pid]);
      assert Member(job, job.processes[i].pid);
    }
    assert SamePids(job, job');
    assert forall p :: Member(job, p) ==> Member(job', p);
    ReplaceKeeps(World(mid, w.jobs), j, job', woken);
    EnvKeeps(World(woken, w.jobs[j := job']), kids');
  }

  lemma {:induction false} WithoutDoneWithin(jobs: seq<Job>)
    ensures forall j :: 0 <= j < |WithoutDone(jobs)| ==> WithoutDone(jobs)[j] in jobs
  {
    if jobs != [] {
      WithoutDoneWithin(jobs[1..]);
    }
  }

  lemma {:induction false} KeptPosition(jobs: seq<Job>, j: nat) returns (k: nat)
    requires j < |jobs| && jobs[j].status != JobDone
    ensures k < |WithoutDone(jobs)| && WithoutDone(jobs)[k] == jobs[j]
    decreases |jobs|
  {
    if j == 0 {
      k := 0;
    } else {
      var r := KeptPosition(jobs[1..], j - 1);
      k := if jobs[0].status == JobDone then r else r + 1;
    }
  }

  lemma {:induction false} CleanupKeeps(kids: map<Pid, RunState>, jobs: seq<Job>)
    requires Inv(World(kids, jobs))
    ensures Inv(World(kids, WithoutDone(jobs)))
    decreases |jobs|
  {
    if jobs != [] {
      CleanupKeeps(kids, jobs[1..]);
      WithoutDoneWithin(jobs[1..]);
      var rest := WithoutDone(jobs[1..]);
      forall j | 0 <= j < |rest| ensures Disjoint(jobs[0], rest[j]) {
        var k :| 0 <= k < |jobs[1..]| && jobs[1..][k] == rest[j];
        assert Disjoint(jobs[0], jobs[k + 1]);
      }
    }
  }

  lemma GroupIsUnique(w: World, j: nat)
    requires Inv(w) && j < |w.jobs|
    ensures FindJob(w.jobs, w.jobs[j].pgid) == j
    ensures WithoutGroup(w.jobs, w.jobs[j].pgid) == w.jobs[..j] + w.jobs[j + 1..]
  {
  }

  lemma DropJobKeeps(w: World, j: nat, kids': map<Pid, RunState>)
    requires Inv(w) && j < |w.jobs| && w.kids.Keys <= kids'.Keys
    requires forall p :: p in w.kids && !Member(w.jobs[j], p) ==> Evolves(w.kids[p], kids'[p])
    ensures Inv(World(kids', w.jobs[..j] + w.jobs[j + 1..]))
  {
    hide JobTracks, Disjoint, Member;
    var jobs' := w.jobs[..j] + w.jobs[j + 1..];
    forall k | 0 <= k < |jobs'| ensures JobTracks(jobs'[k], kids') {
      var l := if k < j then k else k + 1;
      forall p | p in w.kids && Member(w.jobs[l], p) ensures Evolves(w.kids[p], kids'[p]) {
        NoSharedMember(w.jobs, j, l, p);
      }
      JobTracksEvolves(w.jobs[l], w.kids, kids');
    }
    forall k, l | 0 <= k < l < |jobs'| ensures Disjoint(jobs'[k], jobs'[l]) {
      assert Disjoint(w.jobs[if k < j then k else k + 1], w.jobs[if l < j then l else l + 1]);
    }
  }

  lemma ForgetKeeps(w: World, j: nat, w': World, maxJob: int)
    requires Inv(w) && Next(w, Forget(j), w', maxJob)
    ensures Inv(w') && w'.jobs == w.jobs[..j] + w.jobs[j + 1..]
  {
    hide Inv, Member, WithoutGroup;
    GroupIsUnique(w, j);
    DropJobKeeps(w, j, w'.kids);
  }

  /** Every step keeps the table in step with the kernel. */
  lemma NextKeeps(w: World, step: Step, w': World, maxJob: int)
    requires Inv(w) && Next(w, step, w', maxJob)
    ensures Inv(w')
  {
    match step
    case Env => EnvKeeps(w, w'.kids);
    case Launch(id, pids) => LaunchKeeps(w, id, pids, w'.kids);
    case Wait(j, rets) => WaitKeeps(w, j, rets, w', maxJob);
    case Reap(poll) => ReapKeeps(w, poll, w'.kids);
    case Resume(j) =>
      var mid :| EvolvesAll(w.kids, mid) && EvolvesAll(Sigcont(mid, w.jobs[j]), w'.kids);
      ResumeKeeps(w, j, mid, w'.kids);
    case Cleanup =>
      EnvKeeps(w, w'.kids);
      CleanupKeeps(w'.kids, w.jobs);
    case Forget(j) => ForgetKeeps(w, j, w', maxJob);
  }

  // ---------------------------------------------------------------- DONE is final

  lemma {:induction false} DeliveredKeepsReaped(kids: map<Pid, RunState>, job: Job, rets: seq<WaitReturn>,
                                                kids': map<Pid, RunState>, p: Pid)
    requires Delivered(kids, job, rets, kids') && p in kids && kids[p].Reaped?
    ensures p in kids' && kids'[p] == kids[p]
    decreases |rets|
  {
    if rets != [] {
      var mid :| && EvolvesAll(kids, mid) && MayReturn(mid, job, rets[0])
                 && Delivered(AfterReturn(mid, rets[0]), job, rets[1..], kids');
      DeliveredKeepsReaped(AfterReturn(mid, rets[0]), job, rets[1..], kids', p);
    }
  }

  lemma ReapedStays(w: World, step: Step, w': World, maxJob: int, p: Pid)
    requires Next(w, step, w', maxJob) && p in w.kids && w.kids[p].Reaped?
    ensures p in w'.kids && w'.kids[p] == w.kids[p]
  {
    match step
    case Wait(j, rets) => DeliveredKeepsReaped(w.kids, w.jobs[j], rets, w'.kids, p);
    case Resume(j) =>
      var mid :| EvolvesAll(w.kids, mid) && EvolvesAll(Sigcont(mid, w.jobs[j]), w'.kids);
      assert mid[p] == w.kids[p];
      assert Sigcont(mid, w.jobs[j])[p] == mid[p];
    case _ =>
  }

  /** No step moves a record out of DONE or changes how it ended. */
  lemma DoneIsFinal(w: World, step: Step, w': World, maxJob: int, j: nat, i: nat, j': nat, i': nat)
    requires Inv(w) && Next(w, step, w', maxJob)
    requires j < |w.jobs| && i < |w.jobs[j].processes| && w.jobs[j].processes[i].status == ProcessDone
    requires j' < |w'.jobs| && i' < |w'.jobs[j'].processes|
    requires w'.jobs[j'].processes[i'].pid == w.jobs[j].processes[i].pid
    ensures w'.jobs[j'].processes[i'].status == ProcessDone
    ensures w'.jobs[j'].processes[i'].wait == w.jobs[j].processes[i].wait
  {
    NextKeeps(w, step, w', maxJob);
    assert JobTracks(w.jobs[j], w.kids) && JobTracks(w'.jobs[j'], w'.kids);
    ReapedStays(w, step, w', maxJob, w.jobs[j].processes[i].pid);
  }

  // ---------------------------------------------------------------- the job limit

  /** A finished job stays finished, position by position. */
  ghost predicate OnlyFinishes(jobs: seq<Job>, jobs': seq<Job>) {
    |jobs'| == |jobs| && forall j :: 0 <= j < |jobs| && !Active(jobs[j]) ==> !Active(jobs'[j])
  }

  lemma {:induction false} CountOnlyFinishes(jobs: seq<Job>, jobs': seq<Job>)
    requires OnlyFinishes(jobs, jobs')
    ensures CountActive(jobs') <= CountActive(jobs)
    decreases |jobs|
  {
    if jobs != [] {
      assert OnlyFinishes(jobs[1..], jobs'[1..]);
      CountOnlyFinishes(jobs[1..], jobs'[1..]);
    }
  }

  lemma {:induction false} CountWithoutDone(jobs: seq<Job>)
    ensures CountActive(WithoutDone(jobs)) == CountActive(jobs)
  {
    if jobs != [] {
      CountWithoutDone(jobs[1..]);
      var rest := WithoutDone(jobs[1..]);
      assert ([jobs[0]] + rest)[1..] == rest;
      assert [] + rest == rest;
    }
  }

  lemma {:induction false} CountWithout(jobs: seq<Job>, j: nat)
    requires j < |jobs|
    ensures CountActive(jobs[..j] + jobs[j + 1..]) <= CountActive(jobs)
    decreases j
  {
    if j == 0 {
      assert jobs[..0] + jobs[1..] == jobs[1..];
    } else {
      var cut := jobs[..j] + jobs[j + 1..];
      assert cut[1..] == jobs[1..][..j - 1] + jobs[1..][j..];
      CountWithout(jobs[1..], j - 1);
    }
  }

  lemma DoneJobStays(w: World, step: Step, w': World, maxJob: int, j: nat)
    requires Inv(w) && Next(w, step, w', maxJob) && Inv(w')
    requires j < |w.jobs| && j < |w'.jobs| && SamePids(w.jobs[j], w'.jobs[j])
    requires w.jobs[j].status == JobDone
    ensures w'.jobs[j].status == JobDone
  {
    assert JobTracks(w.jobs[j], w.kids) && JobTracks(w'.jobs[j], w'.kids);
    forall i | 0 <= i < |w'.jobs[j].processes| ensures w'.jobs[j].processes[i].status == ProcessDone {
      assert w.jobs[j].processes[i].status == ProcessDone;
      DoneIsFinal(w, step, w', maxJob, j, i, j, i);
    }
  }

  lemma InPlaceStepsKeepPids(w: World, step: Step, w': World, maxJob: int)
    requires Inv(w) && Next(w, step, w', maxJob) && (step.Env? || step.Wait? || step.Reap? || step.Resume?)
    ensures |w'.jobs| == |w.jobs|
    ensures forall j :: 0 <= j < |w.jobs| ==> SamePids(w.jobs[j], w'.jobs[j])
  {
    if step.Wait? {
      WaitAppliesAll(w.kids, w.jobs[step.j], step.rets, w'.kids);
      ApplyAllSamePids(w.jobs[step.j], step.rets);
      assert forall j :: 0 <= j < |w.jobs| && j != step.j ==> w'.jobs[j] == w.jobs[j];
    } else if step.Reap? {
      forall j | 0 <= j < |w.jobs| ensures SamePids(w.jobs[j], w'.jobs[j]) {
        ReapJobShape(w.jobs[j], step.poll);
      }
    }
  }

  lemma {:induction false} ApplyAllSamePids(job: Job, rets: seq<WaitReturn>)
    requires Consistent(job)
    ensures SamePids(job, ApplyAll(job, rets))
    decreases |rets|
  {
    if rets != [] {
      ApplyReturnKeeps(job, rets[0]);
      ApplyAllSamePids(ApplyReturn(job, rets[0]), rets[1..]);
    }
  }

  /** The limit that `check_job_limit` tests at launch holds ever after. */
  lemma LimitKept(w: World, step: Step, w': World, maxJob: int)
    requires Inv(w) && Next(w, step, w', maxJob) && CountActive(w.jobs) <= maxJob
    ensures CountActive(w'.jobs) <= maxJob
  {
    NextKeeps(w, step, w', maxJob);
    match step
    case Launch(id, pids) =>
      assert w'.jobs[1..] == w.jobs;
    case Cleanup => CountWithoutDone(w.jobs);
    case Forget(j) =>
      ForgetKeeps(w, j, w', maxJob);
      CountWithout(w.jobs, j);
    case _ =>
      InPlaceStepsKeepPids(w, step, w', maxJob);
      forall j | 0 <= j < |w.jobs| && !Active(w.jobs[j]) ensures !Active(w'.jobs[j]) {
        DoneJobStays(w, step, w', maxJob, j);
      }
      CountOnlyFinishes(w.jobs, w'.jobs);
  }

  // ---------------------------------------------------------------- whole runs

  /** A run of the shell from an empty table and no children. */
  ghost predicate Run(ws: seq<World>, steps: seq<Step>, maxJob: int) {
    && |ws| == |steps| + 1
    && ws[0] == World(map[], [])
    && forall n :: 0 <= n < |steps| ==> Next(ws[n], steps[n], ws[n + 1], maxJob)
  }

  /** Over every run: records follow the kernel, every job's status is the aggregate of its
      members, and the active jobs never exceed the limit. */
  lemma {:induction false} RunKeeps(ws: seq<World>, steps: seq<Step>, maxJob: int, n: nat)
    requires Run(ws, steps, maxJob) && n < |ws| && maxJob >= 0
    ensures Inv(ws[n])
    ensures CountActive(ws[n].jobs) <= maxJob
  {
    if n > 0 {
      RunKeeps(ws, steps, maxJob, n - 1);
      NextKeeps(ws[n - 1], steps[n - 1], ws[n], maxJob);
      LimitKept(ws[n - 1], steps[n - 1], ws[n], maxJob);
    }
  }

  /** In every reachable world a recorded process is DONE exactly when the kernel has reaped it. */
  lemma DoneIffReaped(ws: seq<World>, steps: seq<Step>, maxJob: int, n: nat, j: nat, i: nat)
    requires Run(ws, steps, maxJob) && n < |ws| && maxJob >= 0
    requires j < |ws[n].jobs| && i < |ws[n].jobs[j].processes|
    ensures var p := ws[n].jobs[j].processes[i];
      p.pid in ws[n].kids && (p.status == ProcessDone <==> ws[n].kids[p.pid].Reaped?)
  {
    RunKeeps(ws, steps, maxJob, n);
    assert JobTracks(ws[n].jobs[j], ws[n].kids);
  }

  predicate Conclusive(poll: Poll) {
    !poll.PollInterrupted? && !poll.PollFailed?
  }

  /** After `job_reap` a record whose poll was not interrupted shows a state with nothing left
      unread; it can only be behind on what the child did after that poll. */
  lemma ReapLeavesOnlyNews(w: World, poll: Pid -> Poll, w': World, maxJob: int, j: nat, i: nat)
    requires Inv(w) && Next(w, Reap(poll), w', maxJob) && j < |w.jobs| && i < |w.jobs[j].processes|
    requires Conclusive(poll(w.jobs[j].processes[i].pid))
    ensures var p := w'.jobs[j].processes[i];
      && p.pid == w.jobs[j].processes[i].pid && p.pid in w'.kids
      && exists s :: !Pending(s) && p.status == View(s) && Evolves(s, w'.kids[p.pid])
  {
    var p := w.jobs[j].processes[i];
    assert JobTracks(w.jobs[j], w.kids);
    assert Member(w.jobs[j], p.pid);
    assert Recorded(w.jobs, p.pid);
    ReapJobShape(w.jobs[j], poll);
    hide Polled, JobTracks, SamePids, Consistent, DistinctPids;
    PollNews(p, w.kids[p.pid], poll(p.pid), w'.kids[p.pid]);
  }

  lemma PollNews(p: Process, s: RunState, poll: Poll, s': RunState)
    requires Tracks(p, s) && Conclusive(poll) && if s.Reaped? then s' == s else Polled(s, poll, s')
    ensures exists seen :: !Pending(seen) && ReapProcess(p, poll).status == View(seen) && Evolves(seen, s')
  {
  }

  /** After `job_reap` with no interrupted `waitpid`, and no child moving meanwhile, every
      record equals the kernel's state and nothing is left unread. */
  lemma ReapCatchesUp(w: World, poll: Pid -> Poll, j: nat, i: nat)
    requires Inv(w) && j < |w.jobs| && i < |w.jobs[j].processes|
    requires var pid := w.jobs[j].processes[i].pid;
      Conclusive(poll(pid)) && (!w.kids[pid].Reaped? ==> MayAnswer(w.kids[pid], poll(pid)))
    ensures var p, s := ReapAll(w.jobs, poll)[j].processes[i], w.kids[w.jobs[j].processes[i].pid];
      var s' := if s.Reaped? then s else AfterPoll(s, poll(p.pid));
      p.pid == w.jobs[j].processes[i].pid && p.status == View(s') && !Pending(s')
  {
  }

  /** A finished job's exit status is that of its last stage, as the kernel recorded it. */
  lemma ExitStatusIsLastStage(w: World, j: nat)
    requires Inv(w) && j < |w.jobs| && w.jobs[j].status == JobDone
    ensures var ps := w.jobs[j].processes; var last := ps[|ps| - 1].pid;
      && last in w.kids && w.kids[last].Reaped?
      && ExitStatus(w.jobs[j]) == Some(EndingStatus(w.kids[last].end))
      && (w.kids[last].end.Exited? ==> ExitStatus(w.jobs[j]).value == w.kids[last].end.code as int)
      && 0 <= ExitStatus(w.jobs[j]).value <= 255
  {
  }
}

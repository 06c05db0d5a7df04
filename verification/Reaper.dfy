/** What the select loop of src/shell.c does on a child event: job_reap, job_cleanup_done. */
module Reaper {
  import opened Options
  import opened Kernel
  import opened Jobs
  import opened JobControl
  import opened Terminal
  import opened System
  import opened Executor

  /** The children job_reap asks about: those not recorded as DONE, job by job. */
  function UndoneOf(ps: seq<Process>): seq<Pid> {
    if ps == [] then []
    else (if ps[0].status == ProcessDone then [] else [ps[0].pid]) + UndoneOf(ps[1..])
  }

  function Undone(jobs: seq<Job>): seq<Pid> {
    if jobs == [] then [] else UndoneOf(jobs[0].processes) + Undone(jobs[1..])
  }

  function Asked(pids: seq<Pid>, poll: Pid -> Poll): seq<(Pid, Poll)> {
    seq(|pids|, k requires 0 <= k < |pids| => (pids[k], poll(pids[k])))
  }

  predicate IsUndone(job: Job, p: Pid) {
    exists i :: 0 <= i < |job.processes| && job.processes[i].pid == p && job.processes[i].status != ProcessDone
  }

  lemma {:induction false} UndoneOfHas(ps: seq<Process>, p: Pid)
    ensures p in UndoneOf(ps) <==> exists i :: 0 <= i < |ps| && ps[i].pid == p && ps[i].status != ProcessDone
  {
    if ps != [] {
      UndoneOfHas(ps[1..], p);
      if i :| 0 <= i < |ps| && ps[i].pid == p && ps[i].status != ProcessDone {
        assert i > 0 ==> ps[1..][i - 1] == ps[i];
      }
    }
  }

  lemma {:induction false} UndoneHas(jobs: seq<Job>, p: Pid)
    ensures p in Undone(jobs) <==> exists j :: 0 <= j < |jobs| && IsUndone(jobs[j], p)
  {
    if jobs != [] {
      hide IsUndone;
      UndoneHas(jobs[1..], p);
      UndoneInJob(jobs[0], p);
      if j :| 0 <= j < |jobs| && IsUndone(jobs[j], p) {
        assert j > 0 ==> jobs[1..][j - 1] == jobs[j];
      }
    }
  }

  lemma UndoneInJob(job: Job, p: Pid)
    ensures IsUndone(job, p) <==> p in UndoneOf(job.processes)
  {
    UndoneOfHas(job.processes, p);
  }

  predicate Unique(pids: seq<Pid>) {
    forall i, k :: 0 <= i < k < |pids| ==> pids[i] != pids[k]
  }

  lemma {:induction false} UndoneOfUnique(ps: seq<Process>)
    requires forall i, k :: 0 <= i < k < |ps| ==> ps[i].pid != ps[k].pid
    ensures Unique(UndoneOf(ps))
  {
    if ps != [] {
      UndoneOfUnique(ps[1..]);
      UndoneOfHas(ps[1..], ps[0].pid);
      assert forall i :: 0 <= i < |ps[1..]| ==> ps[1..][i].pid != ps[0].pid;
    }
  }

  lemma {:induction false} UndoneUnique(jobs: seq<Job>)
    requires AllDisjoint(jobs) && forall j :: 0 <= j < |jobs| ==> DistinctPids(jobs[j])
    ensures Unique(Undone(jobs))
  {
    if jobs != [] {
      UndoneUnique(jobs[1..]);
      UndoneOfUnique(jobs[0].processes);
      var a, b := UndoneOf(jobs[0].processes), Undone(jobs[1..]);
      forall p | p in a ensures p !in b {
        UndoneOfHas(jobs[0].processes, p);
        UndoneHas(jobs[1..], p);
        forall j | 0 <= j < |jobs[1..]| ensures !IsUndone(jobs[1..][j], p) {
          assert Disjoint(jobs[0], jobs[j + 1]);
        }
      }
      UniqueTogether(a, b);
    }
  }

  lemma UniqueTogether(a: seq<Pid>, b: seq<Pid>)
    requires Unique(a) && Unique(b) && forall p :: p in a ==> p !in b
    ensures Unique(a + b)
  {
    var s := a + b;
    forall i, k | 0 <= i < k < |s| ensures s[i] != s[k] {
      if i < |a| <= k {
        assert s[i] in a && s[k] in b;
      }
    }
  }

  lemma PolledEvolves(s: RunState, poll: Poll, s': RunState, s'': RunState)
    requires Polled(s, poll, s') && Evolves(s', s'')
    ensures Polled(s, poll, s'')
  {
    var at :| Evolves(s, at) && MayAnswer(at, poll) && Evolves(AfterPoll(at, poll), s');
    EvolvesTransitive(AfterPoll(at, poll), s', s'');
  }

  /** What the polls made so far have come to. */
  ghost predicate PolledSoFar(before: map<Pid, RunState>, answers: map<Pid, Poll>, kids: map<Pid, RunState>) {
    && kids.Keys == before.Keys
    && forall p :: p in before ==>
         if p in answers then Polled(before[p], answers[p], kids[p]) else Evolves(before[p], kids[p])
  }

  lemma OneMorePoll(before: map<Pid, RunState>, answers: map<Pid, Poll>, kids: map<Pid, RunState>,
                    mid: map<Pid, RunState>, p: Pid, answer: Poll)
    requires PolledSoFar(before, answers, kids) && EvolvesAll(kids, mid) && p in mid && p !in answers
    requires MayAnswer(mid[p], answer)
    ensures PolledSoFar(before, answers[p := answer], mid[p := AfterPoll(mid[p], answer)])
  {
    hide MayAnswer, AfterPoll;
    var kids' := mid[p := AfterPoll(mid[p], answer)];
    forall q | q in before && q != p
      ensures if q in answers then Polled(before[q], answers[q], kids'[q]) else Evolves(before[q], kids'[q])
    {
      if q in answers {
        PolledEvolves(before[q], answers[q], kids[q], mid[q]);
      } else {
        EvolvesTransitive(before[q], kids[q], mid[q]);
      }
    }
    EvolvesTransitive(before[p], kids[p], mid[p]);
    EvolvesReflexive(AfterPoll(mid[p], answer));
  }

  lemma EvolvesReflexive(s: RunState)
    ensures Evolves(s, s)
  {
  }

  /** The waitpid calls of job_reap: one for each child not recorded as DONE, in order. */
  method PollAll(os: Os, jobs: seq<Job>) returns (poll: Pid -> Poll)
    requires os.Valid() && Inv(World(os.kids, jobs))
    modifies os`kids, os`polled
    ensures os.Valid() && PolledAll(World(old(os.kids), jobs), poll, os.kids)
    ensures os.polled == old(os.polled) + Asked(Undone(jobs), poll)
  {
    hide Inv, Os.Valid, PolledSoFar, MayAnswer, AfterPoll, Undone, PolledAll, EvolvesAll, Unique;
    var todo := Undone(jobs);
    TodoIsSound(World(os.kids, jobs));
    var answers: map<Pid, Poll> := map[];
    NothingPolled(os.kids);
    for k := 0 to |todo|
      invariant os.Valid() && PolledSoFar(old(os.kids), answers, os.kids) && os.kids.Keys == old(os.kids).Keys
      invariant forall p :: p in answers <==> p in todo[..k]
      invariant |os.polled| == |old(os.polled)| + k && old(os.polled) <= os.polled
      invariant forall i :: 0 <= i < k ==>
        todo[i] in answers && os.polled[|old(os.polled)| + i] == (todo[i], answers[todo[i]])
    {
      ghost var kids := os.kids;
      assert todo[k] !in todo[..k];
      var answer, mid := os.PollPid(todo[k]);
      OneMorePoll(old(os.kids), answers, kids, mid, todo[k], answer);
      answers := answers[todo[k] := answer];
      assert todo[..k + 1] == todo[..k] + [todo[k]];
    }
    poll := (p: Pid) => if p in answers then answers[p] else NoChange;
    assert todo[..|todo|] == todo;
    assert os.polled == old(os.polled) + Asked(todo, poll);
    AllPolled(World(old(os.kids), jobs), answers, poll, os.kids);
  }

  lemma NothingPolled(kids: map<Pid, RunState>)
    ensures PolledSoFar(kids, map[], kids)
  {
  }

  lemma TodoIsSound(w: World)
    requires Inv(w)
    ensures Unique(Undone(w.jobs)) && forall p :: p in Undone(w.jobs) ==> p in w.kids
  {
    assert forall j :: 0 <= j < |w.jobs| ==> JobTracks(w.jobs[j], w.kids);
    UndoneUnique(w.jobs);
    forall p | p in Undone(w.jobs) ensures p in w.kids {
      UndoneHas(w.jobs, p);
    }
  }

  lemma TodoIsComplete(w: World, p: Pid)
    requires Inv(w) && p in w.kids
    ensures p in Undone(w.jobs) <==> Recorded(w.jobs, p) && !w.kids[p].Reaped?
  {
    UndoneHas(w.jobs, p);
    if j :| 0 <= j < |w.jobs| && IsUndone(w.jobs[j], p) {
      assert JobTracks(w.jobs[j], w.kids) && Member(w.jobs[j], p);
    }
    if Recorded(w.jobs, p) && !w.kids[p].Reaped? {
      var j :| 0 <= j < |w.jobs| && Member(w.jobs[j], p);
      assert JobTracks(w.jobs[j], w.kids);
      assert IsUndone(w.jobs[j], p);
    }
  }

  lemma AllPolled(w: World, answers: map<Pid, Poll>, poll: Pid -> Poll, kids: map<Pid, RunState>)
    requires Inv(w) && PolledSoFar(w.kids, answers, kids) && forall p :: p in answers <==> p in Undone(w.jobs)
    requires forall p :: p in answers ==> poll(p) == answers[p]
    ensures PolledAll(w, poll, kids)
  {
    hide Inv, Polled, Recorded;
    forall p | p in w.kids
      ensures if Recorded(w.jobs, p) && !w.kids[p].Reaped? then Polled(w.kids[p], poll(p), kids[p])
              else Evolves(w.kids[p], kids[p])
    {
      TodoIsComplete(w, p);
    }
  }

  lemma CleanedInOrder(w: World)
    requires Inv(w) && Accounted(w.kids, w.jobs)
    ensures Inv(World(w.kids, WithoutDone(w.jobs))) && Accounted(w.kids, WithoutDone(w.jobs))
  {
    CleanupKeeps(w.kids, w.jobs);
    forall p | p in w.kids && !w.kids[p].Reaped? ensures Recorded(WithoutDone(w.jobs), p) {
      var j :| 0 <= j < |w.jobs| && Member(w.jobs[j], p);
      if w.jobs[j].status == JobDone {
        DoneMeansReaped(w, j);
        assert false;
      }
      var k := KeptPosition(w.jobs, j);
    }
  }

  lemma KeptWithin(kids: set<Pid>, jobs: seq<Job>, jobs': seq<Job>, history: seq<ModeEvent>, terminal: bool)
    requires Kept(kids, jobs, history, terminal)
    requires forall j :: 0 <= j < |jobs'| ==> jobs'[j] in jobs
    ensures Kept(kids, jobs', history, terminal)
  {
  }

  lemma KeptSameAll(kids: set<Pid>, jobs: seq<Job>, jobs': seq<Job>, history: seq<ModeEvent>, terminal: bool)
    requires Kept(kids, jobs, history, terminal) && |jobs'| == |jobs|
    requires forall j :: 0 <= j < |jobs| ==> SamePids(jobs[j], jobs'[j])
    ensures Kept(kids, jobs', history, terminal)
  {
  }

  lemma ReapedInOrder(w: World, poll: Pid -> Poll, kids': map<Pid, RunState>)
    requires Inv(w) && Accounted(w.kids, w.jobs) && PolledAll(w, poll, kids')
    ensures var jobs' := ReapAll(w.jobs, poll);
      && Inv(World(kids', jobs')) && Accounted(kids', jobs')
      && |jobs'| == |w.jobs| && forall j :: 0 <= j < |w.jobs| ==> SamePids(w.jobs[j], jobs'[j])
  {
    hide Inv, SamePids, Accounted;
    var jobs' := ReapAll(w.jobs, poll);
    var w' := World(kids', jobs');
    assert Next(w, Reap(poll), w', 0);
    NextKeeps(w, Reap(poll), w', 0);
    InPlaceStepsKeepPids(w, Reap(poll), w', 0);
    forall p | p in w.kids && w.kids[p].Reaped? ensures kids'[p].Reaped? {
      ReapedStays(w, Reap(poll), w', 0, p);
    }
    AccountedSame(w.kids, w.jobs, kids', jobs');
  }

  /** What a child event has done, whatever its means. A child that was a zombie, and whose poll told
      something, is reaped. A stop that was unread, and whose poll told something, was read, and its
      record shows the report, if the job is still listed. A job of such zombies is not listed. */
  ghost predicate Served(w: World, poll: Pid -> Poll, w': World) {
    && (forall p :: Recorded(w.jobs, p) && p in w.kids && w.kids[p].Zombie? && Conclusive(poll(p)) ==>
          p in w'.kids && w'.kids[p].Reaped?)
    && (forall p :: Recorded(w.jobs, p) && p in w.kids && Pending(w.kids[p]) && Conclusive(poll(p)) ==>
          poll(p).PollReport? && Shows(w'.jobs, p, poll(p).st))
    && (forall j :: 0 <= j < |w.jobs| && AllZombies(w, w.jobs[j], poll) ==>
          forall k :: 0 <= k < |w'.jobs| ==> w'.jobs[k].pgid != w.jobs[j].pgid)
  }

  ghost predicate Shows(jobs: seq<Job>, p: Pid, st: WaitStatus) {
    forall j, i :: 0 <= j < |jobs| && 0 <= i < |jobs[j].processes| && jobs[j].processes[i].pid == p ==>
      jobs[j].processes[i].wait == Some(st)
  }

  ghost predicate AllZombies(w: World, job: Job, poll: Pid -> Poll) {
    forall i :: 0 <= i < |job.processes| ==>
      var p := job.processes[i].pid; p in w.kids && w.kids[p].Zombie? && Conclusive(poll(p))
  }

  /** The child event of the select loop. Every child not recorded as DONE is polled once, the table
      takes the answers, and finished jobs go; nothing is forgotten, no finished job stays, and the
      saved modes of the remaining jobs are unchanged. */
  method ChildEvent(os: Os, jobs: JobManager, tty: Tty) returns (ghost poll: Pid -> Poll)
    requires ShellValid(os, jobs) && ModesKept(os, jobs, tty)
    modifies os`kids, os`polled, jobs`jobs
    ensures ShellValid(os, jobs) && ModesKept(os, jobs, tty)
    ensures os.polled == old(os.polled) + Asked(Undone(old(jobs.jobs)), poll)
    ensures PolledAll(World(old(os.kids), old(jobs.jobs)), poll, os.kids)
    ensures jobs.jobs == WithoutDone(ReapAll(old(jobs.jobs), poll))
    ensures Served(World(old(os.kids), old(jobs.jobs)), poll, World(os.kids, jobs.jobs))
    ensures forall j :: 0 <= j < |jobs.jobs| ==> jobs.jobs[j].status != JobDone
    ensures CountActive(jobs.jobs) <= old(CountActive(jobs.jobs))
  {
    hide Inv, Accounted, Kept, SamePids, PolledAll, Os.Valid, ReapAll, Served;
    ghost var w := World(os.kids, jobs.jobs);
    var answers := PollAll(os, jobs.jobs);
    poll := answers;
    jobs.Reap(answers);
    ghost var w' := World(os.kids, jobs.jobs);
    PolledKeys(w, poll, os.kids);
    ReapedInOrder(w, poll, os.kids);
    KeptSameAll(w.kids.Keys, w.jobs, w'.jobs, tty.history, tty.initialized);
    ReapFinishes(w, poll, w');
    jobs.CleanupDone();
    CleanedInOrder(w');
    WithoutDoneWithin(w'.jobs);
    KeptWithin(os.kids.Keys, w'.jobs, jobs.jobs, tty.history, tty.initialized);
    NoneDone(w'.jobs);
    CountWithoutDone(w'.jobs);
    EventServed(w, poll, os.kids);
  }

  lemma EventServed(w: World, poll: Pid -> Poll, kids: map<Pid, RunState>)
    requires Inv(w) && PolledAll(w, poll, kids)
    ensures Served(w, poll, World(kids, WithoutDone(ReapAll(w.jobs, poll))))
  {
    hide Inv, PolledAll, ReapAll, WithoutDone, Shows, AllZombies;
    var mid := ReapAll(w.jobs, poll);
    ReapSize(w.jobs, poll);
    WithoutDoneWithin(mid);
    NoneDone(mid);
    forall p | Recorded(w.jobs, p) && p in w.kids && Pending(w.kids[p]) && Conclusive(poll(p))
      ensures p in kids && poll(p).PollReport? && Shows(WithoutDone(mid), p, poll(p).st)
      ensures w.kids[p].Zombie? ==> kids[p].Reaped?
    {
      PendingIsTold(w, poll, kids, p);
      ShowsWithin(mid, WithoutDone(mid), p, poll(p).st);
    }
    forall j, k | 0 <= j < |w.jobs| && AllZombies(w, w.jobs[j], poll) && 0 <= k < |WithoutDone(mid)|
      ensures WithoutDone(mid)[k].pgid != w.jobs[j].pgid
    {
      assert WithoutDone(mid)[k] in mid;
      var l :| 0 <= l < |mid| && mid[l] == WithoutDone(mid)[k];
      ZombiesAreDone(w, poll, kids, j);
      ReapKeepsGroups(w, poll, j, l);
    }
  }

  lemma PendingIsTold(w: World, poll: Pid -> Poll, kids: map<Pid, RunState>, p: Pid)
    requires Inv(w) && PolledAll(w, poll, kids) && Recorded(w.jobs, p) && p in w.kids
    requires Pending(w.kids[p]) && Conclusive(poll(p))
    ensures p in kids && poll(p).PollReport? && Shows(ReapAll(w.jobs, poll), p, poll(p).st)
    ensures w.kids[p].Zombie? ==> kids[p].Reaped?
  {
    var at :| Evolves(w.kids[p], at) && MayAnswer(at, poll(p)) && Evolves(AfterPoll(at, poll(p)), kids[p]);
    assert Pending(at);
    hide PolledAll;
    forall j, i | 0 <= j < |w.jobs| && 0 <= i < |w.jobs[j].processes| && w.jobs[j].processes[i].pid == p
      ensures w.jobs[j].processes[i].status != ProcessDone
    {
      assert JobTracks(w.jobs[j], w.kids);
    }
    hide Inv;
    ReapShows(w.jobs, poll, p);
  }

  lemma ReapShows(jobs: seq<Job>, poll: Pid -> Poll, p: Pid)
    requires poll(p).PollReport?
    requires forall j, i :: 0 <= j < |jobs| && 0 <= i < |jobs[j].processes| && jobs[j].processes[i].pid == p ==>
      jobs[j].processes[i].status != ProcessDone
    ensures Shows(ReapAll(jobs, poll), p, poll(p).st)
  {
    var after := ReapAll(jobs, poll);
    forall j, i | 0 <= j < |after| && 0 <= i < |after[j].processes| && after[j].processes[i].pid == p
      ensures after[j].processes[i].wait == Some(poll(p).st)
    {
      ReapMembers(jobs[j], poll);
      assert after[j].processes[i] == ReapProcess(jobs[j].processes[i], poll(jobs[j].processes[i].pid));
    }
  }

  lemma ReapSize(jobs: seq<Job>, poll: Pid -> Poll)
    ensures |ReapAll(jobs, poll)| == |jobs|
  {
  }

  lemma ReapMembers(job: Job, poll: Pid -> Poll)
    ensures ReapJob(job, poll).processes == ReapProcesses(job.processes, poll)
  {
    hide Aggregate;
  }

  lemma ShowsWithin(jobs: seq<Job>, jobs': seq<Job>, p: Pid, st: WaitStatus)
    requires Shows(jobs, p, st) && forall j :: 0 <= j < |jobs'| ==> jobs'[j] in jobs
    ensures Shows(jobs', p, st)
  {
  }

  lemma ZombiesAreDone(w: World, poll: Pid -> Poll, kids: map<Pid, RunState>, j: nat)
    requires Inv(w) && PolledAll(w, poll, kids) && j < |w.jobs| && AllZombies(w, w.jobs[j], poll)
    ensures ReapAll(w.jobs, poll)[j].status == JobDone
  {
    hide Inv, PolledAll, ReapProcess;
    var job := w.jobs[j];
    JobHasGroup(w, j);
    ReapMembers(job, poll);
    forall i | 0 <= i < |job.processes|
      ensures ReapProcess(job.processes[i], poll(job.processes[i].pid)).status == ProcessDone
    {
      ZombieIsDone(w, poll, kids, j, i);
    }
  }

  lemma ZombieIsDone(w: World, poll: Pid -> Poll, kids: map<Pid, RunState>, j: nat, i: nat)
    requires Inv(w) && PolledAll(w, poll, kids) && j < |w.jobs| && AllZombies(w, w.jobs[j], poll)
    requires i < |w.jobs[j].processes|
    ensures ReapProcess(w.jobs[j].processes[i], poll(w.jobs[j].processes[i].pid)).status == ProcessDone
  {
    hide Inv;
    var p := w.jobs[j].processes[i].pid;
    assert Member(w.jobs[j], p);
    assert Recorded(w.jobs, p);
    assert Polled(w.kids[p], poll(p), kids[p]);
    var at :| Evolves(w.kids[p], at) && MayAnswer(at, poll(p)) && Evolves(AfterPoll(at, poll(p)), kids[p]);
  }

  /** Jobs of different positions have different groups, also after the reap. */
  lemma ReapKeepsGroups(w: World, poll: Pid -> Poll, j: nat, l: nat)
    requires Inv(w) && j < |w.jobs| && l < |w.jobs| && ReapAll(w.jobs, poll)[l].status != JobDone
    requires ReapAll(w.jobs, poll)[j].status == JobDone
    ensures ReapAll(w.jobs, poll)[l].pgid != w.jobs[j].pgid
  {
    GroupsDiffer(w, j, l);
  }

  lemma PolledKeys(w: World, poll: Pid -> Poll, kids': map<Pid, RunState>)
    requires PolledAll(w, poll, kids')
    ensures kids'.Keys == w.kids.Keys
  {
  }

  lemma ReapFinishes(w: World, poll: Pid -> Poll, w': World)
    requires Inv(w) && Next(w, Reap(poll), w', 0) && Inv(w')
    ensures CountActive(w'.jobs) <= CountActive(w.jobs)
  {
    hide Inv, SamePids;
    InPlaceStepsKeepPids(w, Reap(poll), w', 0);
    forall j | 0 <= j < |w.jobs| && !Active(w.jobs[j]) ensures !Active(w'.jobs[j]) {
      DoneJobStays(w, Reap(poll), w', 0, j);
    }
    CountOnlyFinishes(w.jobs, w'.jobs);
  }

  lemma {:induction false} NoneDone(jobs: seq<Job>)
    ensures forall j :: 0 <= j < |WithoutDone(jobs)| ==> WithoutDone(jobs)[j].status != JobDone
  {
    if jobs != [] {
      NoneDone(jobs[1..]);
    }
  }
}

/** The select loop of src/shell.c with everything it serves: signals through the self-pipe, the
    kernel's children and the job table. */
module EventLoop {
  import opened Options
  import opened Kernel
  import opened Jobs
  import opened JobControl
  import S = SelfPipe

  /** `raised`: the kernel has a SIGCHLD for the shell that has not been handled yet. */
  datatype Loop = Loop(sys: S.Sys, raised: bool, world: World)

  datatype Move =
    | Inner(step: S.Step)                 // the loop and the handler, as long as no child event is acted on
    | Deliver                             // SIGCHLD is handled
    | ChildrenMove
    | ReapAndClean(poll: Pid -> Poll)     // acting on a child event: job_reap, job_cleanup_done
    | Work(work: Step)                    // a command, fg or bg changes the table

  /** A report that was not pending before comes with a SIGCHLD. */
  predicate NewsRaises(kids: map<Pid, RunState>, kids': map<Pid, RunState>, raised: bool) {
    forall p :: p in kids' && Pending(kids'[p]) && !(p in kids && Pending(kids[p])) ==> raised
  }

  /** So does a report that is pending although its child was polled with success, or was not
      pending before: it arrived after the poll. */
  ghost predicate PolledNewsRaises(w: World, poll: Pid -> Poll, kids': map<Pid, RunState>, raised: bool) {
    forall p | Recorded(w.jobs, p) && p in w.kids && p in kids' && Pending(kids'[p]) ::
      Conclusive(poll(p)) || !Pending(w.kids[p]) ==> raised
  }

  ghost predicate Reaps(w: World, poll: Pid -> Poll, w': World, raised: bool, maxJob: int) {
    exists mid ::
      && Next(w, Reap(poll), mid, maxJob) && PolledNewsRaises(w, poll, mid.kids, raised)
      && w' == World(mid.kids, WithoutDone(mid.jobs))
  }

  predicate ChildTaken(sys: S.Sys) {
    (sys.pc.Copied? || sys.pc.Cleared? || sys.pc.Acting?) && S.Child in sys.pc.events
  }

  ghost predicate Moves(a: Loop, m: Move, b: Loop, maxJob: int) {
    match m
    case Inner(step) =>
      && S.Enabled(a.sys, step) && step != S.Signal(S.Child) && !(step == S.Act && ChildTaken(a.sys))
      && b == a.(sys := S.Do(a.sys, step))
    case Deliver =>
      && a.raised && S.Enabled(a.sys, S.Signal(S.Child))
      && b == Loop(S.Do(a.sys, S.Signal(S.Child)), false, a.world)
    case ChildrenMove =>
      && b.sys == a.sys && (a.raised ==> b.raised)
      && Next(a.world, Env, b.world, maxJob) && NewsRaises(a.world.kids, b.world.kids, b.raised)
    case ReapAndClean(poll) =>
      && S.Enabled(a.sys, S.Act) && ChildTaken(a.sys) && b.sys == S.Do(a.sys, S.Act)
      && (a.raised ==> b.raised) && Reaps(a.world, poll, b.world, b.raised, maxJob)
    case Work(step) =>
      && a.sys.pc == S.Input && !a.sys.notifying && b.sys == a.sys && (a.raised ==> b.raised)
      && Next(a.world, step, b.world, maxJob) && NewsRaises(a.world.kids, b.world.kids, b.raised)
  }

  /** The rule for polled children is the kernel's: a report pending after a poll that told
      something was made by a move after that poll. */
  lemma PendingMeansMoved(s: RunState, poll: Poll, s': RunState)
    requires Polled(s, poll, s') && Conclusive(poll) && Pending(s')
    ensures exists at ::
      Evolves(s, at) && MayAnswer(at, poll) && Evolves(AfterPoll(at, poll), s') && AfterPoll(at, poll) != s'
  {
    var at :| Evolves(s, at) && MayAnswer(at, poll) && Evolves(AfterPoll(at, poll), s');
    assert !Pending(AfterPoll(at, poll));
  }

  // ---------------------------------------------------------------- the invariant

  /** A child event is on its way to job_reap. */
  predicate Owed(a: Loop) {
    a.raised || S.Child in a.sys.pending || ChildTaken(a.sys)
  }

  ghost predicate Unread(w: World, p: Pid) {
    Recorded(w.jobs, p) && p in w.kids && Pending(w.kids[p])
  }

  ghost predicate Good(a: Loop) {
    && Inv(a.world) && S.Inv(a.sys)
    && forall p :: Unread(a.world, p) ==> Owed(a)
  }

  /** A report stays unread with nothing to announce it: its poll told nothing, and no other child
      event has come up since. */
  ghost predicate Skips(a: Loop, poll: Pid -> Poll, b: Loop) {
    && !b.raised && S.Child !in a.sys.pending
    && exists p :: Recorded(a.world.jobs, p) && !Conclusive(poll(p)) && p in b.world.kids && Pending(b.world.kids[p])
  }

  /** The moves after which a report can be forgotten: sigprocmask fails at the wrong moment, or a
      waitpid of job_reap is interrupted or fails. */
  ghost predicate Spoils(a: Loop, m: Move, b: Loop) {
    match m
    case Inner(step) => S.Misses(a.sys, step)
    case ReapAndClean(poll) => Skips(a, poll, b)
    case _ => false
  }

  /** Only a launch adds records, and those of new children. */
  lemma RecordedBefore(w: World, step: Step, w': World, maxJob: int, p: Pid)
    requires Inv(w) && Next(w, step, w', maxJob) && Recorded(w'.jobs, p) && p in w.kids
    ensures Recorded(w.jobs, p)
  {
    hide Inv, Member, WithoutGroup, WithoutDone, LaunchedJob, ReapAll, Delivered, WaitLoop, PolledAll, EvolvesAll;
    hide SamePids, LaunchesFresh;
    var j :| 0 <= j < |w'.jobs| && Member(w'.jobs[j], p);
    if step.Launch? {
      LaunchRecords(w, step.id, step.pids, w', p, j);
    } else if step.Cleanup? {
      WithoutDoneWithin(w.jobs);
      assert w'.jobs[j] in w.jobs;
    } else if step.Forget? {
      ForgetKeeps(w, step.j, w', maxJob);
      assert w'.jobs[j] in w.jobs;
    } else {
      InPlaceStepsKeepPids(w, step, w', maxJob);
      SamePidsMembers(w.jobs[j], w'.jobs[j]);
    }
  }

  lemma LaunchRecords(w: World, id: int, pids: seq<Pid>, w': World, p: Pid, j: nat)
    requires LaunchesFresh(w, pids, w'.kids) && w'.jobs == [LaunchedJob(id, pids)] + w.jobs
    requires j < |w'.jobs| && Member(w'.jobs[j], p) && p in w.kids
    ensures Recorded(w.jobs, p)
  {
    if j > 0 {
      assert Member(w.jobs[j - 1], p);
    }
  }

  lemma InnerKeepsGood(a: Loop, step: S.Step, b: Loop, maxJob: int)
    requires Good(a) && Moves(a, Inner(step), b, maxJob)
    ensures Good(b) <==> !S.Misses(a.sys, step)
  {
    hide Inv, Unread;
    S.StepKeepsInv(a.sys, step);
    assert Owed(a) ==> Owed(b);
  }

  lemma DeliverKeepsGood(a: Loop, b: Loop, maxJob: int)
    requires Good(a) && Moves(a, Deliver, b, maxJob)
    ensures Good(b)
  {
    hide Inv, Unread;
    S.StepKeepsInv(a.sys, S.Signal(S.Child));
  }

  /** Children moving, and work on the table: anything newly unread is announced. */
  lemma WorkKeepsGood(a: Loop, step: Step, b: Loop, maxJob: int)
    requires Good(a) && b.sys == a.sys && (a.raised ==> b.raised)
    requires Next(a.world, step, b.world, maxJob) && NewsRaises(a.world.kids, b.world.kids, b.raised)
    ensures Good(b)
  {
    hide Inv, S.Inv, Next;
    NextKeeps(a.world, step, b.world, maxJob);
    forall p | Unread(b.world, p) ensures Owed(b) {
      if p in a.world.kids && Pending(a.world.kids[p]) {
        RecordedBefore(a.world, step, b.world, maxJob, p);
        assert Unread(a.world, p);
      }
    }
  }

  lemma ReapKeepsGood(a: Loop, poll: Pid -> Poll, b: Loop, maxJob: int)
    requires Good(a) && Moves(a, ReapAndClean(poll), b, maxJob)
    ensures Good(b) <==> !Skips(a, poll, b)
  {
    var mid :|
      && Next(a.world, Reap(poll), mid, maxJob) && PolledNewsRaises(a.world, poll, mid.kids, b.raised)
      && b.world == World(mid.kids, WithoutDone(mid.jobs));
    ReapKeys(a.world, poll, mid, maxJob);
    hide Inv, Next, S.Inv;
    ActKeeps(a.sys);
    NextKeeps(a.world, Reap(poll), mid, maxJob);
    CleanupKeeps(mid.kids, mid.jobs);
    if !Skips(a, poll, b) {
      forall p | Unread(b.world, p) ensures Owed(b) {
        StillRecorded(a.world, poll, mid, maxJob, p);
      }
    } else {
      var p :| Recorded(a.world.jobs, p) && !Conclusive(poll(p)) && p in b.world.kids && Pending(b.world.kids[p]);
      UnreadStays(a.world, poll, mid, maxJob, p);
      assert Unread(b.world, p) && !Owed(b);
    }
  }

  lemma ActKeeps(sys: S.Sys)
    requires S.Inv(sys) && S.Enabled(sys, S.Act)
    ensures S.Inv(S.Do(sys, S.Act)) && !ChildTaken(S.Do(sys, S.Act)) && S.Do(sys, S.Act).pending == sys.pending
  {
  }

  lemma StillRecorded(w: World, poll: Pid -> Poll, mid: World, maxJob: int, p: Pid)
    requires Inv(w) && Next(w, Reap(poll), mid, maxJob) && Recorded(WithoutDone(mid.jobs), p) && p in w.kids
    ensures Recorded(w.jobs, p)
  {
    hide Inv, Next, Member;
    WithoutDoneWithin(mid.jobs);
    var j :| 0 <= j < |WithoutDone(mid.jobs)| && Member(WithoutDone(mid.jobs)[j], p);
    assert WithoutDone(mid.jobs)[j] in mid.jobs;
    assert Recorded(mid.jobs, p);
    RecordedBefore(w, Reap(poll), mid, maxJob, p);
  }

  /** A child with an unread report is not DONE, so its job is not dropped. */
  lemma UnreadStays(w: World, poll: Pid -> Poll, mid: World, maxJob: int, p: Pid)
    requires Inv(w) && Next(w, Reap(poll), mid, maxJob) && Inv(mid)
    requires Recorded(w.jobs, p) && p in mid.kids && Pending(mid.kids[p])
    ensures Recorded(WithoutDone(mid.jobs), p)
  {
    hide Inv, Next, Member, SamePids, WithoutDone;
    var j :| 0 <= j < |w.jobs| && Member(w.jobs[j], p);
    InPlaceStepsKeepPids(w, Reap(poll), mid, maxJob);
    SamePidsMembers(w.jobs[j], mid.jobs[j]);
    UnreadIsActive(mid, j, p);
    var k := KeptPosition(mid.jobs, j);
  }

  lemma UnreadIsActive(w: World, j: nat, p: Pid)
    requires Inv(w) && j < |w.jobs| && Member(w.jobs[j], p) && p in w.kids && Pending(w.kids[p])
    ensures w.jobs[j].status != JobDone
  {
    var job := w.jobs[j];
    assert JobTracks(job, w.kids);
    var i :| 0 <= i < |job.processes| && job.processes[i].pid == p;
    assert job.processes[i].status != ProcessDone;
  }

  lemma ReapKeys(w: World, poll: Pid -> Poll, mid: World, maxJob: int)
    requires Next(w, Reap(poll), mid, maxJob)
    ensures mid.kids.Keys == w.kids.Keys
  {
  }

  lemma MoveKeepsGood(a: Loop, m: Move, b: Loop, maxJob: int)
    requires Good(a) && Moves(a, m, b, maxJob)
    ensures Good(b) <==> !Spoils(a, m, b)
  {
    hide Good, Next, Reaps, S.Do, S.Enabled, Inv, Skips;
    match m
    case Inner(step) => InnerKeepsGood(a, step, b, maxJob);
    case Deliver => DeliverKeepsGood(a, b, maxJob);
    case ChildrenMove => WorkKeepsGood(a, Env, b, maxJob);
    case ReapAndClean(poll) => ReapKeepsGood(a, poll, b, maxJob);
    case Work(step) => WorkKeepsGood(a, step, b, maxJob);
  }

  // ---------------------------------------------------------------- runs

  ghost predicate Run(ls: seq<Loop>, moves: seq<Move>, maxJob: int) {
    && |ls| == |moves| + 1
    && ls[0] == Loop(S.Init(), false, World(map[], []))
    && forall n :: 0 <= n < |moves| ==> Moves(ls[n], moves[n], ls[n + 1], maxJob)
  }

  /** No move before n spoils anything. */
  ghost predicate Unspoilt(ls: seq<Loop>, moves: seq<Move>, n: nat)
    requires n <= |moves| < |ls|
  {
    forall k :: 0 <= k < n ==> !Spoils(ls[k], moves[k], ls[k + 1])
  }

  lemma {:induction false} RunIsGood(ls: seq<Loop>, moves: seq<Move>, maxJob: int, n: nat)
    requires Run(ls, moves, maxJob) && n < |ls| && Unspoilt(ls, moves, n)
    ensures Good(ls[n])
  {
    if n > 0 {
      hide Good, Spoils, Moves;
      RunIsGood(ls, moves, maxJob, n - 1);
      MoveKeepsGood(ls[n - 1], moves[n - 1], ls[n], maxJob);
    }
  }

  /** Over every interleaving: every unread report of a recorded child has a child event on its way,
      and the loop is bound to wake for it, throughout, if and only if no move spoils it. */
  lemma AnnouncedExactlyWhen(ls: seq<Loop>, moves: seq<Move>, maxJob: int)
    requires Run(ls, moves, maxJob)
    ensures (forall n :: 0 <= n < |ls| ==> Good(ls[n])) <==> Unspoilt(ls, moves, |moves|)
  {
    hide Good, Spoils, Moves;
    if Unspoilt(ls, moves, |moves|) {
      forall n | 0 <= n < |ls| ensures Good(ls[n]) {
        RunIsGood(ls, moves, maxJob, n);
      }
    }
    if forall n :: 0 <= n < |ls| ==> Good(ls[n]) {
      forall k | 0 <= k < |moves| ensures !Spoils(ls[k], moves[k], ls[k + 1]) {
        assert Good(ls[k + 1]);
        MoveKeepsGood(ls[k], moves[k], ls[k + 1], maxJob);
      }
    }
  }

  /** Nothing is readable on the pipe and no signal is under way: select blocks. */
  predicate Sleeping(a: Loop) {
    a.sys.pc == S.AtSelect && !a.sys.notifying && !a.raised && a.sys.bytes == 0
  }

  /** Over every interleaving of children, signals, loop and commands: whenever the shell sleeps at
      select, every recorded status equals the kernel's with nothing left unread, and every job's
      status is the aggregate of its members, unless a move has spoilt it. */
  lemma SleepsUpToDate(ls: seq<Loop>, moves: seq<Move>, maxJob: int, n: nat, j: nat, i: nat)
    requires Run(ls, moves, maxJob) && n < |ls| && Unspoilt(ls, moves, n)
    requires Sleeping(ls[n]) && j < |ls[n].world.jobs| && i < |ls[n].world.jobs[j].processes|
    ensures var job, kids := ls[n].world.jobs[j], ls[n].world.kids; var p := job.processes[i];
      && p.pid in kids && p.status == View(kids[p.pid]) && !Pending(kids[p.pid])
      && job.status == Aggregate(job.processes)
  {
    hide Unspoilt, Moves;
    RunIsGood(ls, moves, maxJob, n);
    var w := ls[n].world;
    var pid := w.jobs[j].processes[i].pid;
    assert JobTracks(w.jobs[j], w.kids);
    assert Member(w.jobs[j], pid);
    assert Recorded(w.jobs, pid);
    assert Pending(w.kids[pid]) ==> Unread(w, pid);
  }

  // ---------------------------------------------------------------- why the condition is there

  const STALE := World(map[7 := Stopped(20, true)], [Job(1, 7, JobRunning, [FreshProcess(7)], None)])

  /** What an interrupted poll leads to: the loop acts on the event of a stopped child, the poll is
      interrupted, and the shell sleeps with the stop unread. */
  lemma InterruptedPollIsStale(poll: Pid -> Poll)
    requires forall p :: poll(p) == PollInterrupted
    ensures var a := Loop(S.Sys({}, 0, false, S.Acting(false, {S.Child})), false, STALE);
      var b := Loop(S.Sys({}, 0, false, S.AtSelect), false, STALE);
      && Good(a) && Moves(a, ReapAndClean(poll), b, 1)
      && Sleeping(b) && STALE.jobs[0].processes[0].status != View(STALE.kids[7])
  {
    StaleInv();
    StaleReap(poll);
    hide Inv, Next, Unread, PolledNewsRaises, WithoutDone;
    assert Reaps(STALE, poll, STALE, false, 1);
  }

  lemma StaleInv()
    ensures Inv(STALE)
  {
    var job := STALE.jobs[0];
    assert job.processes[0].status == ProcessRunning;
    assert JobTracks(job, STALE.kids);
  }

  lemma StaleReap(poll: Pid -> Poll)
    requires forall p :: poll(p) == PollInterrupted
    ensures Next(STALE, Reap(poll), STALE, 1) && PolledNewsRaises(STALE, poll, STALE.kids, false)
    ensures WithoutDone(STALE.jobs) == STALE.jobs
  {
    var job, s := STALE.jobs[0], STALE.kids[7];
    assert ReapProcesses(job.processes, poll) == job.processes;
    assert job.processes[0].status == ProcessRunning;
    assert ReapJob(job, poll) == job;
    assert ReapAll(STALE.jobs, poll) == STALE.jobs;
    assert Evolves(s, s) && MayAnswer(s, PollInterrupted);
    assert Polled(s, PollInterrupted, s);
    assert STALE.jobs[1..] == [];
  }
}

/** The operating system as the shell sees it: descriptors, children, and calls that may fail. */
module System {
  import opened Options
  import opened Kernel
  import opened Jobs
  import opened JobControl
  import opened Descriptors

  /** A call that failed. */
  datatype Failure = NoPipe | NoCloexec | NoFork | NoGroup | NoMemory | NoToken | NoWait | NoContinue

  /** The kernel's answer to a poll of a child in this state. */
  function AnswerOf(s: RunState): Poll {
    if s.Reaped? then NoChild
    else match ReportOf(s, true) case Some(st) => PollReport(st) case None => NoChange
  }

  /** The shell's descriptors and its children. Process ids are not reused. */
  class Os {
    var fds: Table
    var kids: map<Pid, RunState>
    var nextPid: Pid
    ghost var born: map<Pid, Table>
    // What went wrong, whom the shell killed, and what each poll of a child answered, in order.
    ghost var failures: seq<Failure>
    ghost var killed: set<Pid>
    ghost var polled: seq<(Pid, Poll)>
    // How many times waitpid for a group has returned.
    ghost var waits: nat
    // The groups that were sent SIGCONT.
    ghost var continued: seq<Pid>

    constructor (fds: Table)
      ensures this.fds == fds && kids == map[] && Valid() && failures == [] && killed == {} && polled == []
    {
      this.fds, kids, nextPid, born := fds, map[], 1, map[];
      failures, killed, polled, waits, continued := [], {}, [], 0, [];
    }

    /** Whether the next call of this sort fails. Nothing else records a failure. */
    method Fails(f: Failure) returns (fails: bool)
      modifies this`failures
      ensures failures == old(failures) + if fails then [f] else []
    {
      fails := *;
      if fails {
        failures := failures + [f];
      }
    }

    ghost predicate Valid()
      reads this`kids, this`nextPid
    {
      nextPid > 0 && forall p :: p in kids ==> p < nextPid
    }

    /** The lowest descriptor not in use, as POSIX prescribes for every new descriptor. */
    static method LowestFree(fds: Table) returns (fd: int)
      ensures fd >= 0 && fd !in fds
      ensures forall k :: 0 <= k < fd ==> k in fds
    {
      fd := 0;
      ghost var left := fds.Keys;
      while fd in fds
        invariant fd >= 0 && forall k :: 0 <= k < fd ==> k in fds
        invariant forall k :: k in fds && k >= fd ==> k in left
        decreases left
      {
        left := left - {fd};
        fd := fd + 1;
      }
    }

    method Pipe(readFile: File, writeFile: File) returns (ok: bool, r: int, w: int)
      modifies this`fds, this`failures
      ensures failures == old(failures) + if ok then [] else [NoPipe]
      ensures !ok ==> fds == old(fds) && r == -1 && w == -1
      ensures ok ==> r >= 0 && w >= 0 && r != w && r !in old(fds) && w !in old(fds)
      ensures ok ==> forall k :: 0 <= k < r ==> k in old(fds)
      ensures ok ==> forall k :: 0 <= k < w ==> k in old(fds) || k == r
      ensures ok ==> fds == old(fds)[r := readFile][w := writeFile]
    {
      r, w := -1, -1;
      var fails := Fails(NoPipe);
      ok := !fails;
      if ok {
        r := LowestFree(fds);
        w := LowestFree(fds[r := readFile]);
        forall k | 0 <= k < w ensures k in fds || k == r {
          assert k in fds[r := readFile];
        }
        fds := fds[r := readFile][w := writeFile];
      }
    }

    method Close(fd: int)
      requires fd in fds
      modifies this`fds
      ensures fds == old(fds) - {fd}
    {
      fds := fds - {fd};
    }

    method CloseIfOpen(fd: int)
      requires fd >= 0 ==> fd in fds
      modifies this`fds
      ensures fds == if fd >= 0 then old(fds) - {fd} else old(fds)
    {
      if fd >= 0 {
        Close(fd);
      }
    }

    /** A child starts with a copy of the shell's table. */
    method Fork() returns (pid: int)
      requires Valid()
      modifies this`kids, this`nextPid, this`born, this`failures
      ensures Valid() && failures == old(failures) + if pid < 0 then [NoFork] else []
      ensures pid < 0 ==> kids == old(kids) && born == old(born)
      ensures pid >= 0 ==> pid > 0 && pid !in old(kids)
      ensures pid >= 0 ==> kids == old(kids)[pid := Running(false)] && born == old(born)[pid := fds]
    {
      var fails := Fails(NoFork);
      if fails {
        return -1;
      }
      pid := *;
      if pid < nextPid {
        pid := nextPid;
      }
      kids, nextPid, born := kids[pid := Running(false)], pid + 1, born[pid := fds];
    }

    /** Anything the children may do by themselves. */
    method Time()
      requires Valid()
      modifies this`kids
      ensures Valid() && EvolvesAll(old(kids), kids)
    {
      var todo := kids.Keys;
      while todo != {}
        invariant Valid() && EvolvesAll(old(kids), kids) && todo <= kids.Keys
        decreases todo
      {
        var p :| p in todo;
        todo := todo - {p};
        var s: RunState := *;
        if Evolves(kids[p], s) {
          EvolvesTransitive(old(kids)[p], kids[p], s);
          kids := kids[p := s];
        }
      }
    }

    /** SIGKILL. */
    method Kill(pid: Pid)
      modifies this`killed
      ensures killed == old(killed) + {pid}
    {
      killed := killed + {pid};
    }

    /** `reap_pid`: a blocking waitpid, which returns only once the child has ended. */
    method ReapPid(pid: Pid)
      requires Valid() && pid in kids && (pid in killed || kids[pid].Zombie? || kids[pid].Reaped?)
      modifies this`kids
      ensures Valid() && pid in kids && kids == old(kids)[pid := kids[pid]] && kids[pid].Reaped?
      ensures old(kids)[pid].Reaped? ==> kids[pid] == old(kids)[pid]
    {
      match kids[pid] {
        case Reaped(_) =>
        case Zombie(end) => kids := kids[pid := Reaped(end)];
        case _ =>
          var end: Ending := *;
          kids := kids[pid := Reaped(end)];
      }
    }

    /** One return of waitpid(-pgid, WUNTRACED) for the group of this job. */
    method WaitAny(job: Job) returns (ret: WaitReturn, ghost mid: map<Pid, RunState>)
      requires Valid()
      modifies this`kids, this`failures, this`waits
      ensures waits == old(waits) + 1
      ensures Valid() && EvolvesAll(old(kids), mid) && MayReturn(mid, job, ret) && kids == AfterReturn(mid, ret)
      ensures failures == old(failures) + if ret.Failed? then [NoWait] else []
    {
      Time();
      mid, waits := kids, waits + 1;
      var fails := Fails(NoWait);
      if fails {
        return WaitReturn.Failed, mid;
      }
      ret := *;
      if ret.Failed? || !MayReturn(kids, job, ret) {
        ret := Interrupted;
      }
      kids := AfterReturn(kids, ret);
    }

    /** One waitpid(pid, WNOHANG) of the reaper. */
    method PollPid(pid: Pid) returns (answer: Poll, ghost mid: map<Pid, RunState>)
      requires Valid() && pid in kids
      modifies this`kids, this`polled
      ensures Valid() && EvolvesAll(old(kids), mid) && pid in mid && MayAnswer(mid[pid], answer)
      ensures kids == mid[pid := AfterPoll(mid[pid], answer)] && polled == old(polled) + [(pid, answer)]
    {
      Time();
      mid := kids;
      var interrupted: bool, failed: bool := *, *;
      answer := if interrupted then PollInterrupted else if failed then PollFailed else AnswerOf(kids[pid]);
      kids := kids[pid := AfterPoll(kids[pid], answer)];
      polled := polled + [(pid, answer)];
    }

    /** SIGCONT to the group of a job. */
    method SendContinue(job: Job) returns (sent: bool)
      requires Valid()
      modifies this`kids, this`failures, this`continued
      ensures continued == old(continued) + if sent then [job.pgid] else []
      ensures Valid() && kids == if sent then Sigcont(old(kids), job) else old(kids)
      ensures failures == old(failures) + if sent then [] else [NoContinue]
    {
      var fails := Fails(NoContinue);
      sent := !fails;
      if sent {
        kids, continued := Sigcont(kids, job), continued + [job.pgid];
      }
    }
  }
}

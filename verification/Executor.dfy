/** execute_single and execute_pipeline of src/executor.c, over every choice of failing
    system call and every behaviour of the children. */
module Executor {
  import opened Options
  import opened Kernel
  import opened Jobs
  import opened JobControl
  import opened Descriptors
  import opened Terminal
  import opened System
  import Gate

  const MAX_PIPELINE: nat := 64

  const OK := 0
  const ERR_UNKNOWN := -1
  const ERR_FORK := -3
  const ERR_PIPE := -4
  const ERR_JOB := -8

  /** A return code, or the call is still blocked waiting for the job. */
  datatype Outcome = Code(code: int) | Blocked

  // ---------------------------------------------------------------- the startup gate

  /** The acts of the parent at the startup gate, checked against the order of module Gate. */
  class GateLog {
    ghost var acts: seq<Gate.ParentAct>
    ghost var gate: Gate.Parent

    constructor (wantsTerminal: bool)
      ensures Valid() && gate == Gate.ParentInit(wantsTerminal)
    {
      acts, gate := [], Gate.ParentInit(wantsTerminal);
    }

    ghost predicate Valid()
      reads this
    {
      Gate.ParentRuns(Gate.ParentInit(gate.wantsTerminal), acts) == Some(gate)
    }

    ghost method Do(act: Gate.ParentAct)
      requires Valid() && Gate.ParentDoes(gate, act).Some?
      modifies this
      ensures Valid() && gate == Gate.ParentDoes(old(gate), act).value
    {
      assert (acts + [act])[..|acts|] == acts;
      acts, gate := acts + [act], Gate.ParentDoes(gate, act).value;
    }
  }

  // ---------------------------------------------------------------- bookkeeping predicates

  /** The code reported for a failed call. */
  function CodeOf(f: Failure): int {
    match f
    case NoPipe => ERR_PIPE
    case NoCloexec => ERR_PIPE
    case NoFork => ERR_FORK
    case NoMemory => ERR_JOB
    case _ => ERR_UNKNOWN
  }

  /** Exactly one more call has failed, and this is its code. */
  predicate FailedOnce(before: seq<Failure>, after: seq<Failure>, code: int) {
    |after| == |before| + 1 && before <= after && code == CodeOf(after[|before|])
  }

  /** Every child is reaped or in the job table. */
  predicate Accounted(kids: map<Pid, RunState>, jobs: seq<Job>) {
    forall p :: p in kids ==> kids[p].Reaped? || Recorded(jobs, p)
  }

  /** `kids` is `before` after the fork of `pids`, with everyone free to run. */
  ghost predicate Grown(before: map<Pid, RunState>, pids: seq<Pid>, kids: map<Pid, RunState>) {
    && (forall p :: p in kids <==> p in before || p in pids)
    && (forall i :: 0 <= i < |pids| ==> pids[i] > 0 && pids[i] !in before)
    && (forall i, k :: 0 <= i < k < |pids| ==> pids[i] != pids[k])
    && (forall p :: p in before ==> Evolves(before[p], kids[p]))
    && (forall i :: 0 <= i < |pids| ==> Evolves(Running(false), kids[pids[i]]))
  }

  /** `kids` is `before` with `pids` ended and reaped. */
  ghost predicate RolledBack(before: map<Pid, RunState>, pids: seq<Pid>, kids: map<Pid, RunState>) {
    && before.Keys <= kids.Keys
    && (forall p :: p in before && p !in pids ==> Evolves(before[p], kids[p]))
    && (forall p :: p in kids && p !in before ==> kids[p].Reaped?)
    && (forall p :: p in before && p in pids ==> kids[p].Reaped? && (before[p].Reaped? ==> kids[p] == before[p]))
  }

  lemma GrownPids(before: map<Pid, RunState>, pids: seq<Pid>, kids: map<Pid, RunState>)
    requires Grown(before, pids, kids)
    ensures forall p :: p in pids ==> p in kids
  {
  }

  lemma GrownStep(before: map<Pid, RunState>, pids: seq<Pid>, mid: map<Pid, RunState>, pid: Pid,
                  kids: map<Pid, RunState>)
    requires Grown(before, pids, mid) && pid > 0 && pid !in mid
    requires EvolvesAll(mid[pid := Running(false)], kids)
    ensures Grown(before, pids + [pid], kids)
  {
    var pids' := pids + [pid];
    forall p | p in before ensures Evolves(before[p], kids[p]) {
      EvolvesTransitive(before[p], mid[p], kids[p]);
    }
    forall i | 0 <= i < |pids'| ensures pids'[i] > 0 && pids'[i] !in before && Evolves(Running(false), kids[pids'[i]]) {
      if i < |pids| {
        assert pids[i] in mid;
        EvolvesTransitive(Running(false), mid[pids[i]], kids[pids[i]]);
      }
    }
    forall i, k | 0 <= i < k < |pids'| ensures pids'[i] != pids'[k] {
      assert pids[i] in mid;
    }
  }

  lemma GrownEvolves(before: map<Pid, RunState>, pids: seq<Pid>, mid: map<Pid, RunState>, kids: map<Pid, RunState>)
    requires Grown(before, pids, mid) && EvolvesAll(mid, kids)
    ensures Grown(before, pids, kids)
  {
    forall p | p in mid ensures Evolves(mid[p], kids[p]) {
    }
    forall p | p in before ensures Evolves(before[p], kids[p]) {
      EvolvesTransitive(before[p], mid[p], kids[p]);
    }
    forall i | 0 <= i < |pids| ensures Evolves(Running(false), kids[pids[i]]) {
      EvolvesTransitive(Running(false), mid[pids[i]], kids[pids[i]]);
    }
  }

  lemma NothingRolledBack(before: map<Pid, RunState>, kids: map<Pid, RunState>)
    requires EvolvesAll(before, kids)
    ensures RolledBack(before, [], kids)
  {
  }

  lemma RolledBackStep(before: map<Pid, RunState>, pids: seq<Pid>, mid: map<Pid, RunState>, pid: Pid,
                       kids: map<Pid, RunState>)
    requires RolledBack(before, pids, mid) && mid.Keys == before.Keys && pid in mid && pid in kids
    requires kids == mid[pid := kids[pid]] && kids[pid].Reaped? && (mid[pid].Reaped? ==> kids[pid] == mid[pid])
    ensures RolledBack(before, pids + [pid], kids) && kids.Keys == before.Keys
  {
  }

  lemma GrownThenRolledBack(before: map<Pid, RunState>, pids: seq<Pid>, mid: map<Pid, RunState>,
                            kids: map<Pid, RunState>)
    requires Grown(before, pids, mid) && RolledBack(mid, pids, kids) && kids.Keys == mid.Keys
    ensures RolledBack(before, [], kids)
  {
  }

  // ---------------------------------------------------------------- starting and undoing

  /** Reaping shows at the gate as one act for each child. */
  ghost method LogReaps(log: GateLog, n: nat)
    requires log.Valid() && !log.gate.writeOpen && log.gate.forked == n
    modifies log
    ensures log.Valid() && Gate.AllReaped(log.gate)
    ensures log.gate == old(log.gate).(reaped := log.gate.reaped)
  {
    for i := 0 to n
      invariant log.Valid()
      invariant log.gate == old(log.gate).(reaped := log.gate.reaped)
      invariant forall k: nat :: k < i ==> k in log.gate.reaped
    {
      log.Do(Gate.Reap(i));
    }
  }

  /** `rollback_pipeline`: kill and reap everyone started so far. */
  method Rollback(os: Os, log: GateLog, pids: seq<Pid>)
    requires os.Valid() && log.Valid() && !log.gate.writeOpen && log.gate.forked == |pids|
    requires forall i :: 0 <= i < |pids| ==> pids[i] in os.kids
    modifies os`kids, os`killed, log
    ensures os.Valid() && log.Valid()
    ensures RolledBack(old(os.kids), pids, os.kids) && os.kids.Keys == old(os.kids).Keys
    ensures log.gate == old(log.gate).(reaped := log.gate.reaped) && Gate.AllReaped(log.gate)
  {
    hide RolledBack, Os.Valid, GateLog.Valid;
    for i := 0 to |pids|
      invariant forall k :: 0 <= k < i ==> pids[k] in os.killed
      modifies os`killed
    {
      os.Kill(pids[i]);
    }
    os.Time();
    NothingRolledBack(old(os.kids), os.kids);
    for i := 0 to |pids|
      invariant os.Valid()
      invariant RolledBack(old(os.kids), pids[..i], os.kids) && os.kids.Keys == old(os.kids).Keys
      modifies os`kids
    {
      ghost var mid := os.kids;
      os.ReapPid(pids[i]);
      RolledBackStep(old(os.kids), pids[..i], mid, pids[i], os.kids);
      assert pids[..i + 1] == pids[..i] + [pids[i]];
    }
    assert pids[..|pids|] == pids;
    LogReaps(log, |pids|);
  }

  method CloseFive(os: Os, r: int, w: int, pipeFd: int, g0: int, g1: int)
    requires r >= 0 ==> r in os.fds && r != w && r != pipeFd && r != g0 && r != g1
    requires w >= 0 ==> w in os.fds && w != pipeFd && w != g0 && w != g1
    requires pipeFd >= 0 ==> pipeFd in os.fds && pipeFd != g0 && pipeFd != g1
    requires g0 in os.fds && g1 in os.fds && g0 != g1 && g0 >= 0 && g1 >= 0
    requires -1 !in os.fds && r >= -1 && w >= -1 && pipeFd >= -1
    modifies os`fds
    ensures os.fds == old(os.fds) - {r, w, pipeFd, g0, g1}
  {
    os.CloseIfOpen(r);
    os.CloseIfOpen(w);
    os.CloseIfOpen(pipeFd);
    os.Close(g0);
    os.Close(g1);
  }

  /** Each stage forked so far started from its own two pipes and the gate. */
  ghost predicate BornAs(born: map<Pid, Table>, gated: Table, rs: seq<int>, ws: seq<int>, pids: seq<Pid>) {
    forall i :: 0 <= i < |pids| ==> pids[i] in born && born[pids[i]] == Inherited(gated, rs, ws, i)
  }

  predicate HeldFds(gated: Table, k: nat, pipeFd: int, r: int, w: int) {
    && (pipeFd == -1 || (pipeFd >= 0 && k > 0 && pipeFd !in gated))
    && (r == w == -1 || (r >= 0 && w >= 0 && r != w && r !in gated && w !in gated && r != pipeFd && w != pipeFd))
  }

  /** The pipes of the turns so far, and the read end carried to turn |pids|. */
  ghost predicate Piped(gated: Table, rs: seq<int>, ws: seq<int>, n: nat, k: nat, pipeFd: int) {
    && k <= n && |rs| == (if k < n then k else n - 1)
    && PipeFds(gated, rs, ws)
    && pipeFd == if k < n then FdOf(rs, k - 1) else -1
  }

  lemma HeldCloses(base: Table, g0: int, g1: int, k: nat, pipeFd: int, r: int, w: int)
    requires GateFds(base, g0, g1) && -1 !in base && HeldFds(WithGate(base, g0, g1), k, pipeFd, r, w)
    ensures Held(WithGate(base, g0, g1), k, pipeFd, r, w) - {r, w, pipeFd, g0, g1} == base
  {
  }

  lemma HeldAdvances(gated: Table, k: nat, pipeFd: int, r: int, w: int)
    requires -1 !in gated && HeldFds(gated, k, pipeFd, r, w)
    ensures Held(gated, k, pipeFd, r, w) - {pipeFd} - {w} == Held(gated, k + 1, r, -1, -1)
  {
  }

  function Extend(s: seq<int>, fd: int): seq<int> {
    if fd >= 0 then s + [fd] else s
  }

  /** What turn k leaves for turn k + 1. */
  lemma PipedAdvances(gated: Table, rs: seq<int>, ws: seq<int>, n: nat, k: nat, pipeFd: int, r: int, w: int)
    requires Piped(gated, rs, ws, n, k, pipeFd) && k < n
    requires HeldFds(gated, k, pipeFd, r, w) && (r >= 0 <==> k + 1 < n)
    ensures Piped(gated, Extend(rs, r), Extend(ws, w), n, k + 1, r)
    ensures Held(gated, k, pipeFd, r, w) == Inherited(gated, Extend(rs, r), Extend(ws, w), k)
  {
  }

  lemma BornAsAdvances(born: map<Pid, Table>, gated: Table, rs: seq<int>, ws: seq<int>, pids: seq<Pid>, r: int,
                       w: int, pid: Pid)
    requires BornAs(born, gated, rs, ws, pids) && |rs| == |ws| == |pids| && pid !in pids && (r >= 0 <==> w >= 0)
    ensures BornAs(born[pid := Inherited(gated, Extend(rs, r), Extend(ws, w), |pids|)],
                   gated, Extend(rs, r), Extend(ws, w), pids + [pid])
  {
  }

  /** fork, as the parent sees it: one more child, which has a copy of the table. */
  method ForkChild(os: Os, log: GateLog, pids: seq<Pid>, ghost kids0: map<Pid, RunState>) returns (pid: int)
    requires os.Valid() && log.Valid() && log.gate.readOpen && log.gate.writeOpen && Grown(kids0, pids, os.kids)
    modifies os`kids, os`nextPid, os`born, os`failures, log
    ensures os.Valid() && log.Valid() && os.failures == old(os.failures) + if pid < 0 then [NoFork] else []
    ensures pid < 0 ==> os.kids == old(os.kids) && os.born == old(os.born) && log.gate == old(log.gate)
    ensures pid >= 0 ==>
      && pid > 0 && pid !in pids && Grown(kids0, pids + [pid], os.kids)
      && os.born == old(os.born)[pid := os.fds] && log.gate == old(log.gate).(forked := old(log.gate.forked) + 1)
  {
    GrownPids(kids0, pids, os.kids);
    hide Grown, Os.Valid, GateLog.Valid;
    ghost var kids := os.kids;
    pid := os.Fork();
    if pid >= 0 {
      log.Do(Gate.Fork);
      os.Time();
      GrownStep(kids0, pids, kids, pid, os.kids);
    }
  }

  /** The pipe to the next stage, if there is one. */
  method PipeForStage(os: Os, ghost gated: Table, n: nat, k: nat, ghost pipeFd: int) returns (ok: bool, r: int, w: int)
    requires k < n && HeldFds(gated, k, pipeFd, -1, -1) && os.fds == Held(gated, k, pipeFd, -1, -1)
    modifies os`fds, os`failures
    ensures HeldFds(gated, k, pipeFd, r, w) && os.fds == Held(gated, k, pipeFd, r, w)
    ensures ok ==> (r >= 0 <==> k + 1 < n)
    ensures os.failures == old(os.failures) + if ok then [] else [NoPipe]
  {
    ok, r, w := true, -1, -1;
    if k + 1 < n {
      ok, r, w := os.Pipe(PipeEnd(k, false), PipeEnd(k, true));
    }
  }

  /** Success means that nothing failed; an error is that of the one call that failed, or says that
      there are too many stages. */
  predicate WhyNot(before: seq<Failure>, after: seq<Failure>, code: int, tooMany: bool) {
    if code == OK then after == before
    else FailedOnce(before, after, code) || (tooMany && code == ERR_UNKNOWN && after == before)
  }

  /** Turn k: open the pipe to the next stage, fork, set the group. */
  method ForkStage(os: Os, log: GateLog, ghost gated: Table, n: nat,
                   pids: seq<Pid>, ghost pipeFd: int, ghost kids0: map<Pid, RunState>)
    returns (code: int, pids': seq<Pid>, r: int, w: int)
    requires |pids| < n && os.Valid() && log.Valid()
    requires log.gate == Gate.ParentInit(log.gate.wantsTerminal).(forked := |pids|)
    requires HeldFds(gated, |pids|, pipeFd, -1, -1) && os.fds == Held(gated, |pids|, pipeFd, -1, -1)
    requires Grown(kids0, pids, os.kids) && |pids| <= MAX_PIPELINE
    modifies os, log
    ensures os.Valid() && log.Valid() && log.gate == old(log.gate).(forked := |pids'|)
    ensures HeldFds(gated, |pids|, pipeFd, r, w) && os.fds == Held(gated, |pids|, pipeFd, r, w)
    ensures Grown(kids0, pids', os.kids) && code <= 0
    ensures code == OK ==>
      && |pids| < MAX_PIPELINE && |pids'| == |pids| + 1 && pids'[..|pids|] == pids
      && (r >= 0 <==> |pids| + 1 < n)
      && pids'[|pids|] !in pids && os.born == old(os.born)[pids'[|pids|] := os.fds]
    ensures os.killed == old(os.killed) && os.polled == old(os.polled) && os.waits == old(os.waits)
    ensures WhyNot(old(os.failures), os.failures, code, |pids| >= MAX_PIPELINE)
  {
    hide Grown, Os.Valid, GateLog.Valid, Held, HeldFds;
    code, pids', r, w := OK, pids, -1, -1;
    if |pids| >= MAX_PIPELINE {
      return ERR_UNKNOWN, pids', r, w;
    }
    var ok;
    ok, r, w := PipeForStage(os, gated, n, |pids|, pipeFd);
    if !ok {
      return ERR_PIPE, pids', r, w;
    }
    var pid := ForkChild(os, log, pids, kids0);
    if pid < 0 {
      return ERR_FORK, pids', r, w;
    }
    pids' := pids + [pid];
    var alone := os.Fails(NoGroup);   // setpgid_parent
    if alone {
      code := ERR_UNKNOWN;
    }
  }

  /** The gate was shut before any token was written, and every child was reaped. */
  predicate Undone(p: Gate.Parent) {
    !p.writeOpen && p.written == 0 && Gate.AllReaped(p)
  }

  /** A failing turn: nothing of the pipeline is left. */
  method AbortTurn(os: Os, log: GateLog, ghost base: Table, g0: int, g1: int, ghost k: nat, pipeFd: int, r: int, w: int,
                   pids: seq<Pid>, ghost kids0: map<Pid, RunState>)
    requires os.Valid() && log.Valid() && log.gate == Gate.ParentInit(log.gate.wantsTerminal).(forked := |pids|)
    requires GateFds(base, g0, g1) && -1 !in base
    requires HeldFds(WithGate(base, g0, g1), k, pipeFd, r, w) && os.fds == Held(WithGate(base, g0, g1), k, pipeFd, r, w)
    requires Grown(kids0, pids, os.kids)
    modifies os`fds, os`kids, os`killed, log
    ensures os.Valid() && log.Valid() && os.fds == base && RolledBack(kids0, [], os.kids)
    ensures log.gate.wantsTerminal == old(log.gate.wantsTerminal) && Undone(log.gate)
  {
    hide Grown, RolledBack, Os.Valid, GateLog.Valid;
    ghost var grown := os.kids;
    HeldCloses(base, g0, g1, k, pipeFd, r, w);
    GrownPids(kids0, pids, os.kids);
    CloseFive(os, r, w, pipeFd, g0, g1);
    log.Do(Gate.CloseReadEnd);
    log.Do(Gate.CloseWriteEnd);
    Rollback(os, log, pids);
    GrownThenRolledBack(kids0, pids, grown, os.kids);
  }

  /** The end of a successful turn: the parent drops the ends it handed on. */
  method CloseTurn(os: Os, ghost gated: Table, ghost k: nat, pipeFd: int, r: int, w: int)
    requires -1 !in gated && HeldFds(gated, k, pipeFd, r, w) && os.fds == Held(gated, k, pipeFd, r, w)
    modifies os`fds
    ensures os.fds == Held(gated, k + 1, r, -1, -1)
  {
    HeldAdvances(gated, k, pipeFd, r, w);
    os.CloseIfOpen(pipeFd);
    os.CloseIfOpen(w);
  }

  /** Every invariant of the fork loop about descriptors, in terms of values. */
  ghost predicate Launching(fds: Table, born: map<Pid, Table>, gated: Table, rs: seq<int>, ws: seq<int>, n: nat,
                            pids: seq<Pid>, pipeFd: int) {
    && Piped(gated, rs, ws, n, |pids|, pipeFd)
    && fds == Held(gated, |pids|, pipeFd, -1, -1)
    && BornAs(born, gated, rs, ws, pids)
  }

  lemma LaunchingAdvances(born: map<Pid, Table>, born': map<Pid, Table>, gated: Table, rs: seq<int>, ws: seq<int>,
                          n: nat,
                          pids: seq<Pid>, pids': seq<Pid>, pipeFd: int, r: int, w: int)
    requires Piped(gated, rs, ws, n, |pids|, pipeFd) && BornAs(born, gated, rs, ws, pids) && |pids| < n
    requires HeldFds(gated, |pids|, pipeFd, r, w) && (r >= 0 <==> |pids| + 1 < n)
    requires |pids'| == |pids| + 1 && pids'[..|pids|] == pids && pids'[|pids|] !in pids
    requires born' == born[pids'[|pids|] := Held(gated, |pids|, pipeFd, r, w)]
    ensures Launching(Held(gated, |pids'|, r, -1, -1), born', gated, Extend(rs, r), Extend(ws, w), n, pids', r)
  {
    PipedAdvances(gated, rs, ws, n, |pids|, pipeFd, r, w);
    BornAsAdvances(born, gated, rs, ws, pids, r, w, pids'[|pids|]);
    assert pids' == pids + [pids'[|pids|]];
  }

  /** One turn of the fork loop of `execute_pipeline`. */
  method Turn(os: Os, log: GateLog, ghost base: Table, g0: int, g1: int, n: nat,
              pids: seq<Pid>, pipeFd: int, ghost rs: seq<int>, ghost ws: seq<int>, ghost kids0: map<Pid, RunState>)
    returns (code: int, pids': seq<Pid>, pipeFd': int, ghost rs': seq<int>, ghost ws': seq<int>)
    requires |pids| < n && os.Valid() && log.Valid()
    requires log.gate == Gate.ParentInit(log.gate.wantsTerminal).(forked := |pids|)
    requires GateFds(base, g0, g1) && -1 !in base && |pids| <= MAX_PIPELINE
    requires Launching(os.fds, os.born, WithGate(base, g0, g1), rs, ws, n, pids, pipeFd) && Grown(kids0, pids, os.kids)
    modifies os, log
    ensures os.Valid() && log.Valid() && log.gate.wantsTerminal == old(log.gate.wantsTerminal) && code <= 0
    ensures code == OK ==>
      && |pids'| == |pids| + 1 <= MAX_PIPELINE && Grown(kids0, pids', os.kids)
      && Launching(os.fds, os.born, WithGate(base, g0, g1), rs', ws', n, pids', pipeFd')
      && log.gate == old(log.gate).(forked := |pids'|)
    ensures code != OK ==>
      os.fds == base && RolledBack(kids0, [], os.kids) && Undone(log.gate)
    ensures (code == OK ==> os.killed == old(os.killed)) && os.polled == old(os.polled) && os.waits == old(os.waits)
    ensures WhyNot(old(os.failures), os.failures, code, n > MAX_PIPELINE)
  {
    hide Grown, RolledBack, Held, Os.Valid, GateLog.Valid, FailedOnce;
    ghost var gated, born := WithGate(base, g0, g1), os.born;
    var r, w;
    code, pids', r, w := ForkStage(os, log, gated, n, pids, pipeFd, kids0);
    pipeFd', rs', ws' := r, Extend(rs, r), Extend(ws, w);
    if code != OK {
      AbortTurn(os, log, base, g0, g1, |pids|, pipeFd, r, w, pids', kids0);
    } else {
      LaunchingAdvances(born, os.born, gated, rs, ws, n, pids, pids', pipeFd, r, w);
      CloseTurn(os, gated, |pids|, pipeFd, r, w);
    }
  }

  /** The fork loop of `execute_pipeline`, for a chain of n commands. */
  method StartStages(os: Os, log: GateLog, ghost base: Table, g0: int, g1: int, n: nat)
    returns (code: int, pids: seq<Pid>, ghost rs: seq<int>, ghost ws: seq<int>)
    requires n > 0 && os.Valid() && log.Valid() && log.gate == Gate.ParentInit(log.gate.wantsTerminal)
    requires GateFds(base, g0, g1) && os.fds == WithGate(base, g0, g1) && -1 !in base
    modifies os, log
    ensures os.Valid() && log.Valid() && log.gate.wantsTerminal == old(log.gate.wantsTerminal) && code <= 0
    ensures code == OK ==>
      && n <= MAX_PIPELINE && |pids| == n && Grown(old(os.kids), pids, os.kids)
      && Launching(os.fds, os.born, WithGate(base, g0, g1), rs, ws, n, pids, -1)
      && log.gate == old(log.gate).(forked := n)
    ensures code != OK ==>
      os.fds == base && RolledBack(old(os.kids), [], os.kids) && Undone(log.gate)
    ensures (code == OK ==> os.killed == old(os.killed)) && os.polled == old(os.polled) && os.waits == old(os.waits)
    ensures WhyNot(old(os.failures), os.failures, code, n > MAX_PIPELINE)
  {
    hide FailedOnce;
    var pipeFd := -1;
    code, pids, rs, ws := OK, [], [], [];
    while code == OK && |pids| < n
      invariant os.Valid() && log.Valid() && log.gate.wantsTerminal == old(log.gate.wantsTerminal) && code <= 0
      invariant code == OK ==>
        && |pids| <= n && |pids| <= MAX_PIPELINE && Grown(old(os.kids), pids, os.kids)
        && Launching(os.fds, os.born, WithGate(base, g0, g1), rs, ws, n, pids, pipeFd)
        && log.gate == old(log.gate).(forked := |pids|)
      invariant code != OK ==>
        os.fds == base && RolledBack(old(os.kids), [], os.kids) && Undone(log.gate)
      invariant (code == OK ==> os.killed == old(os.killed)) && os.polled == old(os.polled) && os.waits == old(os.waits)
      invariant WhyNot(old(os.failures), os.failures, code, n > MAX_PIPELINE)
      decreases code == OK, n - |pids|
    {
      code, pids, pipeFd, rs, ws := Turn(os, log, base, g0, g1, n, pids, pipeFd, rs, ws, old(os.kids));
    }
  }

  // ---------------------------------------------------------------- registering and releasing

  /** job_add, then process_add for every child; memory may run out at any of them. */
  method Register(os: Os, log: GateLog, jobs: JobManager, pids: seq<Pid>) returns (ok: bool, listed: bool)
    requires log.Valid() && log.gate == Gate.ParentInit(log.gate.wantsTerminal).(forked := |pids|, readOpen := false)
    requires pids != [] && forall i :: 0 <= i < |pids| ==> pids[i] > 0
    modifies os`failures, jobs, log
    ensures log.Valid() && os.failures == old(os.failures) + if ok then [] else [NoMemory]
    ensures log.gate == old(log.gate).(listed := listed, added := log.gate.added)
    ensures ok ==> listed && log.gate.added == |pids|
    ensures ok ==> jobs.jobs == [LaunchedJob(old(jobs.nextId), pids)] + old(jobs.jobs)
    ensures !listed ==> jobs.jobs == old(jobs.jobs)
    ensures listed ==>
      |jobs.jobs| == |old(jobs.jobs)| + 1 && jobs.jobs[1..] == old(jobs.jobs) && jobs.jobs[0].pgid == pids[0]
  {
    hide GateLog.Valid;
    ghost var older := jobs.jobs;
    var short := os.Fails(NoMemory);
    listed := jobs.Add(pids[0], !short);
    ok := listed;
    if !listed {
      return;
    }
    log.Do(Gate.AddJob);
    var i := 0;
    assert Members(pids[..i]) == [];
    while ok && i < |pids|
      invariant i <= |pids| && log.Valid() && os.failures == old(os.failures) + if ok then [] else [NoMemory]
      invariant log.gate == old(log.gate).(listed := true, added := i)
      invariant jobs.jobs == [Job(old(jobs.nextId), pids[0], JobRunning, Members(pids[..i]), None)] + older
      decreases |pids| - i, ok
    {
      short := os.Fails(NoMemory);
      ok := jobs.AddProcess(0, pids[i], !short);
      if ok {
        MembersAppend(pids, i);
        log.Do(Gate.AddProcess);
        i := i + 1;
      }
    }
    assert ok ==> pids[..i] == pids;
  }

  function Members(pids: seq<Pid>): seq<Process> {
    seq(|pids|, i requires 0 <= i < |pids| => FreshProcess(pids[i]))
  }

  lemma MembersAppend(pids: seq<Pid>, i: nat)
    requires i < |pids|
    ensures Members(pids[..i]) + [FreshProcess(pids[i])] == Members(pids[..i + 1])
  {
  }

  /** `startup_gate_release`: any write may fail. */
  method Release(os: Os, log: GateLog, count: nat) returns (ok: bool)
    requires log.Valid() && Gate.Registered(log.gate)
    requires log.gate.writeOpen && log.gate.written == 0 && log.gate.forked == count
    modifies os`failures, log
    ensures os.failures == old(os.failures) + if ok then [] else [NoToken]
    ensures log.Valid() && log.gate == old(log.gate).(written := log.gate.written)
    ensures ok ==> log.gate.written == count
  {
    hide GateLog.Valid;
    for i := 0 to count
      invariant log.Valid() && log.gate == old(log.gate).(written := i) && os.failures == old(os.failures)
    {
      var broken := os.Fails(NoToken);
      if broken {
        return false;
      }
      log.Do(Gate.WriteToken);
    }
    ok := true;
  }

  /** The failure exits after the fork loop: shut the gate, undo the forks, drop the job. */
  method AbortLaunch(os: Os, log: GateLog, jobs: JobManager, g1: int, pids: seq<Pid>, listed: bool)
    requires os.Valid() && log.Valid() && log.gate.writeOpen && log.gate.forked == |pids| && log.gate.listed == listed
    requires pids != [] && pids[0] > 0 && forall i :: 0 <= i < |pids| ==> pids[i] in os.kids
    requires g1 in os.fds
    requires listed ==> jobs.jobs != [] && jobs.jobs[0].pgid == pids[0]
    modifies os`fds, os`kids, os`killed, log, jobs`jobs
    ensures os.Valid() && log.Valid() && os.fds == old(os.fds) - {g1}
    ensures RolledBack(old(os.kids), pids, os.kids) && os.kids.Keys == old(os.kids).Keys
    ensures jobs.jobs == if listed then old(jobs.jobs)[1..] else old(jobs.jobs)
    ensures log.gate.written == old(log.gate.written) && !log.gate.writeOpen && Gate.AllReaped(log.gate)
  {
    hide RolledBack, Os.Valid, GateLog.Valid;
    os.Close(g1);
    log.Do(Gate.CloseWriteEnd);
    Rollback(os, log, pids);
    if listed {
      jobs.Remove(pids[0]);
      log.Do(Gate.RemoveJob);
    }
  }

  /** Everything between the fork loop and the wait. */
  method Launch(os: Os, log: GateLog, jobs: JobManager, tty: Tty, g1: int, pids: seq<Pid>, background: bool)
    returns (code: int)
    requires os.Valid() && log.Valid()
    requires log.gate == Gate.ParentInit(!background && tty.initialized).(forked := |pids|, readOpen := false)
    requires pids != [] && forall i :: 0 <= i < |pids| ==> pids[i] > 0 && pids[i] in os.kids
    requires g1 in os.fds && (tty.restoreFailed || tty.AtPrompt())
    modifies os`fds, os`kids, os`killed, os`failures, log, jobs, tty`owner, tty`modes, tty`restoreFailed, tty`refused
    ensures os.Valid() && log.Valid() && os.fds == old(os.fds) - {g1} && code <= 0
    ensures code == OK ==> LedgerOf(os, tty) == old(LedgerOf(os, tty))
    ensures code != OK ==> Excused(old(LedgerOf(os, tty)), LedgerOf(os, tty), Code(code), None)
    ensures code == OK ==>
      && jobs.jobs == [LaunchedJob(old(jobs.nextId), pids)] + old(jobs.jobs) && EvolvesAll(old(os.kids), os.kids)
      && log.gate.listed && log.gate.forked == log.gate.written == |pids| && !log.gate.writeOpen
      && tty.modes == old(tty.modes) && tty.restoreFailed == old(tty.restoreFailed)
      && tty.owner == if !background && tty.initialized then pids[0] else old(tty.owner)
    ensures code != OK ==>
      && jobs.jobs == old(jobs.jobs) && RolledBack(old(os.kids), pids, os.kids) && os.kids.Keys == old(os.kids).Keys
      && (tty.restoreFailed || tty.AtPrompt()) && Gate.AllReaped(log.gate)
  {
    hide RolledBack, Os.Valid, GateLog.Valid, Excused, Gate.AllReaped, Gate.ParentInit, LaunchedJob;
    GateWaits(log.gate, !background && tty.initialized, |pids|);
    ghost var was := LedgerOf(os, tty);
    var ok, listed := Register(os, log, jobs, pids);
    if !ok {
      AbortLaunch(os, log, jobs, g1, pids, listed);
      ExcusedBy(was, LedgerOf(os, tty), NoMemory);
      return ERR_JOB;
    }
    assert LedgerOf(os, tty) == was;
    code := Unleash(os, log, jobs, tty, g1, pids, !background && tty.initialized);
  }

  /** The job is listed: hand it the terminal if it is to have it, and open the gate. */
  method Unleash(os: Os, log: GateLog, jobs: JobManager, tty: Tty, g1: int, pids: seq<Pid>, foreground: bool)
    returns (code: int)
    requires os.Valid() && log.Valid() && (foreground ==> tty.initialized)
    requires log.gate.writeOpen && log.gate.listed && log.gate.forked == log.gate.added == |pids|
    requires log.gate.written == 0
    requires log.gate.wantsTerminal == foreground
    requires pids != [] && forall i :: 0 <= i < |pids| ==> pids[i] > 0 && pids[i] in os.kids
    requires g1 in os.fds && (tty.restoreFailed || tty.AtPrompt())
    requires jobs.jobs != [] && jobs.jobs[0].pgid == pids[0]
    modifies os`fds, os`kids, os`killed, os`failures, log, jobs`jobs, tty`owner, tty`modes, tty`restoreFailed
    modifies tty`refused
    ensures os.Valid() && log.Valid() && os.fds == old(os.fds) - {g1} && code <= 0
    ensures code == OK ==> LedgerOf(os, tty) == old(LedgerOf(os, tty))
    ensures code != OK ==> Excused(old(LedgerOf(os, tty)), LedgerOf(os, tty), Code(code), None)
    ensures code == OK ==>
      && jobs.jobs == old(jobs.jobs) && EvolvesAll(old(os.kids), os.kids)
      && log.gate.listed && log.gate.forked == log.gate.written == |pids| && !log.gate.writeOpen
      && tty.modes == old(tty.modes) && tty.restoreFailed == old(tty.restoreFailed)
      && tty.owner == if foreground then pids[0] else old(tty.owner)
    ensures code != OK ==>
      && jobs.jobs == old(jobs.jobs)[1..] && RolledBack(old(os.kids), pids, os.kids)
      && os.kids.Keys == old(os.kids).Keys && (tty.restoreFailed || tty.AtPrompt()) && Gate.AllReaped(log.gate)
  {
    hide RolledBack, Os.Valid, GateLog.Valid, Excused, Gate.AllReaped, EvolvesAll;
    ghost var was := LedgerOf(os, tty);
    var ok;
    if foreground {
      ok := tty.SetForeground(pids[0]);
      if !ok {
        AbortLaunch(os, log, jobs, g1, pids, true);
        var _ := tty.Restore();
        ExcusedByTerminal(was, LedgerOf(os, tty));
        return ERR_UNKNOWN;
      }
      log.Do(Gate.GiveTerminal);
    }
    ok := Release(os, log, |pids|);
    if !ok {
      AbortLaunch(os, log, jobs, g1, pids, true);
      if foreground {
        var _ := tty.Restore();
      }
      ExcusedBy(was, LedgerOf(os, tty), NoToken);
      return ERR_UNKNOWN;
    }
    os.Close(g1);
    log.Do(Gate.CloseWriteEnd);
    os.Time();
    code := OK;
  }

  lemma GateWaits(p: Gate.Parent, wantsTerminal: bool, n: nat)
    requires p == Gate.ParentInit(wantsTerminal).(forked := n, readOpen := false)
    ensures p.writeOpen && !p.listed && !p.readOpen && p.added == p.written == 0 && p.forked == n && !p.terminalGiven
    ensures p.wantsTerminal == wantsTerminal
    ensures p == Gate.ParentInit(p.wantsTerminal).(forked := n, readOpen := false)
  {
  }

  lemma ExcusedBy(was: Ledger, now: Ledger, f: Failure)
    requires now.failures == was.failures + [f]
    ensures Excused(was, now, Code(CodeOf(f)), None)
  {
  }

  lemma ExcusedByTerminal(was: Ledger, now: Ledger)
    requires now.failures == was.failures && now.refused > was.refused
    ensures Excused(was, now, Code(ERR_UNKNOWN), None)
  {
  }

  // ---------------------------------------------------------------- waiting and finishing

  /** The shell between two commands: the table follows the kernel and no child is forgotten. */
  ghost predicate ShellValid(os: Os, jobs: JobManager)
    reads os`kids, os`nextPid, jobs`jobs
  {
    os.Valid() && Inv(World(os.kids, jobs.jobs)) && Accounted(os.kids, jobs.jobs)
  }

  /** Jobs were always resumed properly, and each job's saved modes are those read last. */
  ghost predicate Kept(kids: set<Pid>, jobs: seq<Job>, history: seq<ModeEvent>, terminal: bool) {
    && ProperHistory(history)
    && (forall k :: 0 <= k < |history| ==> history[k].pgid in kids)
    && (terminal ==> forall j :: 0 <= j < |jobs| ==> jobs[j].modes == LastRead(history, jobs[j].pgid))
  }

  ghost predicate ModesKept(os: Os, jobs: JobManager, tty: Tty)
    reads os`kids, jobs`jobs, tty`history
  {
    Kept(os.kids.Keys, jobs.jobs, tty.history, tty.initialized)
  }

  lemma KeptSame(kids: set<Pid>, jobs: seq<Job>, history: seq<ModeEvent>, terminal: bool, j: nat, job: Job)
    requires Kept(kids, jobs, history, terminal) && j < |jobs| && SamePids(jobs[j], job)
    ensures Kept(kids, jobs[j := job], history, terminal)
  {
  }

  lemma KeptDrop(kids: set<Pid>, jobs: seq<Job>, history: seq<ModeEvent>, terminal: bool, j: nat)
    requires Kept(kids, jobs, history, terminal) && j < |jobs|
    ensures Kept(kids, jobs[..j] + jobs[j + 1..], history, terminal)
  {
  }

  lemma KeptLaunch(kids: set<Pid>, jobs: seq<Job>, history: seq<ModeEvent>, terminal: bool, kids': set<Pid>, job: Job)
    requires Kept(kids, jobs, history, terminal) && kids <= kids' && job.pgid !in kids && job.modes == None
    ensures Kept(kids', jobs, history, terminal) && Kept(kids', [job] + jobs, history, terminal)
  {
    NeverRead(history, job.pgid);
    hide LastRead, ProperHistory;
  }

  lemma KeptGrow(kids: set<Pid>, jobs: seq<Job>, history: seq<ModeEvent>, terminal: bool, kids': set<Pid>)
    requires Kept(kids, jobs, history, terminal) && kids <= kids'
    ensures Kept(kids', jobs, history, terminal)
  {
  }

  /** What successive `waitpid(-pgid)` calls return while this job is waited for, with the
      children running in between. `fuel` bounds how many calls are looked at. */
  method Returns(os: Os, job0: Job, job: Job, fuel: nat) returns (rets: seq<WaitReturn>)
    requires os.Valid() && Consistent(job) && forall p :: Member(job, p) <==> Member(job0, p)
    modifies os`kids, os`failures, os`waits
    ensures os.Valid() && Delivered(old(os.kids), job0, rets, os.kids)
    ensures WaitLoop(job, rets).used == |rets|
    ensures WaitLoop(job, rets).verdict == StillWaiting ==> os.waits == old(os.waits) + fuel
    ensures os.failures == old(os.failures) + if WaitLoop(job, rets).verdict == Error then [NoWait] else []
    decreases fuel
  {
    if fuel == 0 || job.status != JobRunning {
      os.Time();
      return [];
    }
    var ret, mid := os.WaitAny(job0);
    var rest := [];
    ApplyReturnKeeps(job, ret);
    if !ret.Failed? {
      rest := Returns(os, job0, ApplyReturn(job, ret), fuel - 1);
    }
    rets := [ret] + rest;
    assert rets[1..] == rest;
    assert ret.Failed? ==> EvolvesAll(AfterReturn(mid, ret), os.kids);
    assert Delivered(AfterReturn(mid, rets[0]), job0, rets[1..], os.kids);
  }

  lemma AccountedSame(kids: map<Pid, RunState>, jobs: seq<Job>, kids': map<Pid, RunState>, jobs': seq<Job>)
    requires Accounted(kids, jobs) && kids'.Keys == kids.Keys && |jobs'| == |jobs|
    requires forall p :: p in kids && kids[p].Reaped? ==> kids'[p].Reaped?
    requires forall j :: 0 <= j < |jobs| ==> SamePids(jobs[j], jobs'[j])
    ensures Accounted(kids', jobs')
  {
  }

  /** A foreground wait leaves the shell in order. */
  lemma WaitedInOrder(w: World, j: nat, rets: seq<WaitReturn>, w': World)
    requires Inv(w) && Accounted(w.kids, w.jobs) && Next(w, Wait(j, rets), w', 0)
    ensures Inv(w') && Accounted(w'.kids, w'.jobs) && w'.kids.Keys == w.kids.Keys
    ensures |w'.jobs| == |w.jobs| && SamePids(w.jobs[j], w'.jobs[j]) && w'.jobs == w.jobs[j := w'.jobs[j]]
  {
    hide Inv, Accounted, SamePids, Delivered, WaitLoop;
    NextKeeps(w, Wait(j, rets), w', 0);
    InPlaceStepsKeepPids(w, Wait(j, rets), w', 0);
    DeliveredKeys(w.kids, w.jobs[j], rets, w'.kids);
    forall p | p in w.kids && w.kids[p].Reaped? ensures w'.kids[p].Reaped? {
      ReapedStays(w, Wait(j, rets), w', 0, p);
    }
    AccountedSame(w.kids, w.jobs, w'.kids, w'.jobs);
  }

  lemma {:induction false} DeliveredKeys(kids: map<Pid, RunState>, job: Job, rets: seq<WaitReturn>,
                                         kids': map<Pid, RunState>)
    requires Delivered(kids, job, rets, kids')
    ensures kids'.Keys == kids.Keys
    decreases |rets|
  {
    if rets != [] {
      var mid :| && EvolvesAll(kids, mid) && MayReturn(mid, job, rets[0])
                 && Delivered(AfterReturn(mid, rets[0]), job, rets[1..], kids');
      DeliveredKeys(AfterReturn(mid, rets[0]), job, rets[1..], kids');
    }
  }

  /** A job all of whose members are reaped can be dropped. */
  lemma DroppedInOrder(w: World, j: nat)
    requires Inv(w) && Accounted(w.kids, w.jobs) && j < |w.jobs|
    requires forall p :: p in w.kids && Member(w.jobs[j], p) ==> w.kids[p].Reaped?
    ensures var jobs' := w.jobs[..j] + w.jobs[j + 1..];
      && WithoutGroup(w.jobs, w.jobs[j].pgid) == jobs'
      && Inv(World(w.kids, jobs')) && Accounted(w.kids, jobs')
  {
    hide Inv, Accounted, WithoutGroup, Member;
    GroupIsUnique(w, j);
    KidsStay(w.kids);
    DropJobKeeps(w, j, w.kids);
    DroppedAccounted(w, j);
  }

  lemma KidsStay(kids: map<Pid, RunState>)
    ensures forall p :: p in kids ==> Evolves(kids[p], kids[p])
  {
  }

  lemma DroppedAccounted(w: World, j: nat)
    requires Accounted(w.kids, w.jobs) && j < |w.jobs|
    requires forall p :: p in w.kids && Member(w.jobs[j], p) ==> w.kids[p].Reaped?
    ensures Accounted(w.kids, w.jobs[..j] + w.jobs[j + 1..])
  {
    hide Member;
    var jobs' := w.jobs[..j] + w.jobs[j + 1..];
    forall p | p in w.kids && !w.kids[p].Reaped? ensures Recorded(jobs', p) {
      var k :| 0 <= k < |w.jobs| && Member(w.jobs[k], p);
      assert jobs'[if k < j then k else k - 1] == w.jobs[k];
    }
  }

  lemma DoneMeansReaped(w: World, j: nat)
    requires Inv(w) && j < |w.jobs| && w.jobs[j].status == JobDone
    ensures forall p :: p in w.kids && Member(w.jobs[j], p) ==> w.kids[p].Reaped?
  {
  }

  lemma ModesDoNotMatter(w: World, j: nat, m: Option<int>)
    requires Inv(w) && Accounted(w.kids, w.jobs) && j < |w.jobs|
    ensures var jobs' := w.jobs[j := w.jobs[j].(modes := m)];
      Inv(World(w.kids, jobs')) && Accounted(w.kids, jobs')
  {
    var jobs' := w.jobs[j := w.jobs[j].(modes := m)];
    forall k | 0 <= k < |jobs'| ensures JobTracks(jobs'[k], w.kids) {
      assert JobTracks(w.jobs[k], w.kids);
    }
    forall k, l | 0 <= k < l < |jobs'| ensures Disjoint(jobs'[k], jobs'[l]) {
      assert Disjoint(w.jobs[k], w.jobs[l]);
    }
    forall p | p in w.kids && !w.kids[p].Reaped? ensures Recorded(jobs', p) {
      var k :| 0 <= k < |w.jobs| && Member(w.jobs[k], p);
      var i :| 0 <= i < |w.jobs[k].processes| && w.jobs[k].processes[i].pid == p;
      assert jobs'[k].processes[i].pid == p;
      assert Member(jobs'[k], p);
    }
  }

  /** Reading the modes of a job that has just stopped in the foreground. */
  method SaveModes(os: Os, jobs: JobManager, tty: Tty, j: nat)
    requires ShellValid(os, jobs) && ModesKept(os, jobs, tty) && j < |jobs.jobs|
    requires tty.initialized ==> tty.owner == jobs.jobs[j].pgid
    modifies jobs`jobs, tty`history
    ensures ShellValid(os, jobs) && ModesKept(os, jobs, tty)
    ensures |jobs.jobs| == |old(jobs.jobs)|
    ensures jobs.jobs == old(jobs.jobs)[j := old(jobs.jobs)[j].(modes := jobs.jobs[j].modes)]
    ensures Appends(old(tty.history), tty.history, old(jobs.jobs)[j].pgid)
    ensures tty.initialized ==>
      && EndsInStop(old(tty.history), tty.history, old(jobs.jobs)[j].pgid)
      && tty.history[|tty.history| - 1].under == tty.modes
  {
    hide Inv, Accounted, Kept, Os.Valid;
    ghost var w := World(os.kids, jobs.jobs);
    var ok, m := tty.GetModes();
    var saved := if ok then Some(m) else jobs.jobs[j].modes;
    ModesDoNotMatter(w, j, saved);
    JobHasGroup(w, j);
    ghost var read := if ok then Some(m) else None;
    if tty.initialized {
      KeptSaved(w, tty.history, j, read, tty.modes);
      tty.NoteStop(jobs.jobs[j].pgid, read);
    } else {
      KeptWithout(os.kids.Keys, w.jobs, tty.history, w.jobs[j := w.jobs[j].(modes := saved)]);
    }
    jobs.jobs := jobs.jobs[j := jobs.jobs[j].(modes := saved)];
  }

  /** Without a terminal the saved modes mean nothing. */
  lemma KeptWithout(kids: set<Pid>, jobs: seq<Job>, history: seq<ModeEvent>, jobs': seq<Job>)
    requires Kept(kids, jobs, history, false)
    ensures Kept(kids, jobs', history, false)
  {
  }

  lemma KeptSaved(w: World, history: seq<ModeEvent>, j: nat, read: Option<Modes>, under: Modes)
    requires Inv(w) && j < |w.jobs| && Kept(w.kids.Keys, w.jobs, history, true)
    requires read.Some? ==> read.value == under
    ensures var job := w.jobs[j];
      Kept(w.kids.Keys, w.jobs[j := job.(modes := if read.Some? then read else job.modes)],
           history + [Stop(job.pgid, job.pgid, under, read)], true)
  {
    var e := Stop(w.jobs[j].pgid, w.jobs[j].pgid, under, read);
    JobHasGroup(w, j);
    ProperNext(history, e);
    hide LastRead, Proper, ProperHistory;
    LastReadNext(history, e, w.jobs[j].pgid);
    forall k | 0 <= k < |w.jobs| && k != j
      ensures LastRead(history + [e], w.jobs[k].pgid) == LastRead(history, w.jobs[k].pgid)
    {
      GroupsDiffer(w, j, k);
      LastReadNext(history, e, w.jobs[k].pgid);
    }
  }

  lemma KeptResumed(w: World, history: seq<ModeEvent>, j: nat, found: Modes, under: Modes)
    requires Inv(w) && j < |w.jobs| && Kept(w.kids.Keys, w.jobs, history, true)
    requires under == if w.jobs[j].modes.Some? then w.jobs[j].modes.value else found
    ensures Kept(w.kids.Keys, w.jobs, history + [Wake(w.jobs[j].pgid, w.jobs[j].pgid, found, under)], true)
  {
    var e := Wake(w.jobs[j].pgid, w.jobs[j].pgid, found, under);
    JobHasGroup(w, j);
    assert (history + [e])[..|history|] == history;
    ProperNext(history, e);
    hide LastRead, Proper, ProperHistory;
    forall k | 0 <= k < |w.jobs| ensures LastRead(history + [e], w.jobs[k].pgid) == LastRead(history, w.jobs[k].pgid) {
      LastReadNext(history, e, w.jobs[k].pgid);
    }
  }

  lemma KeptRuns(w: World, history: seq<ModeEvent>, j: nat)
    requires Inv(w) && j < |w.jobs| && Kept(w.kids.Keys, w.jobs, history, true)
    ensures Kept(w.kids.Keys, w.jobs, history + [Runs(w.jobs[j].pgid, w.jobs[j].pgid)], true)
  {
    var e := Runs(w.jobs[j].pgid, w.jobs[j].pgid);
    JobHasGroup(w, j);
    ProperNext(history, e);
    hide LastRead, Proper, ProperHistory;
    forall k | 0 <= k < |w.jobs| ensures LastRead(history + [e], w.jobs[k].pgid) == LastRead(history, w.jobs[k].pgid) {
      LastReadNext(history, e, w.jobs[k].pgid);
    }
  }

  /** Jobs have different groups. */
  lemma GroupsDiffer(w: World, j: nat, k: nat)
    requires Inv(w) && j < |w.jobs| && k < |w.jobs| && j != k
    ensures w.jobs[j].pgid != w.jobs[k].pgid
  {
    hide JobTracks;
    GroupIsUnique(w, j);
    GroupIsUnique(w, k);
  }

  /** `finish_foreground_job` for the job at position j, after its wait has settled. */
  method FinishForeground(os: Os, jobs: JobManager, tty: Tty, j: nat) returns (code: int)
    requires ShellValid(os, jobs) && ModesKept(os, jobs, tty)
    requires j < |jobs.jobs| && jobs.jobs[j].status != JobRunning
    requires if tty.initialized then tty.owner == jobs.jobs[j].pgid else tty.restoreFailed || tty.AtPrompt()
    modifies jobs`jobs, tty
    ensures ShellValid(os, jobs) && ModesKept(os, jobs, tty)
    ensures tty.restoreFailed || tty.AtPrompt()
    ensures Appends(old(tty.history), tty.history, old(jobs.jobs)[j].pgid)
    ensures FinishedAs(old(jobs.jobs), j, jobs.jobs, code, tty.restoreFailed)
    ensures tty.initialized && old(jobs.jobs)[j].status == JobStopped ==>
      && EndsInStop(old(tty.history), tty.history, old(jobs.jobs)[j].pgid)
      && tty.history[|tty.history| - 1].under == old(tty.modes)
  {
    hide Inv, Accounted, Kept, Os.Valid, ExitStatus;
    if tty.initialized {
      if jobs.jobs[j].status == JobStopped {
        SaveModes(os, jobs, tty, j);
      }
      var ok := tty.Restore();
      if !ok {
        return ERR_UNKNOWN;
      }
    }
    if jobs.jobs[j].status == JobStopped {
      return OK;
    }
    code := RemoveFinished(os, jobs, j);
    KeptDrop(os.kids.Keys, old(jobs.jobs), tty.history, tty.initialized, j);
  }

  /** How a foreground job that no longer runs is dealt with: a finished one is removed and its
      exit status reported, a stopped one stays; only saved modes may change, and on a failed
      restore the job stays whatever its state. */
  ghost predicate FinishedAs(before: seq<Job>, j: nat, after: seq<Job>, code: int, restoreFailed: bool)
    requires j < |before|
  {
    if code == ERR_UNKNOWN then restoreFailed && OnlyModesDiffer(before, j, after)
    else if before[j].status == JobStopped then code == OK && OnlyModesDiffer(before, j, after)
    else
      && before[j].status == JobDone && after == before[..j] + before[j + 1..]
      && Some(code) == ExitStatus(before[j]) && 0 <= code <= 255
  }

  predicate OnlyModesDiffer(before: seq<Job>, j: nat, after: seq<Job>)
    requires j < |before|
  {
    |after| == |before| && after == before[j := before[j].(modes := after[j].modes)]
  }

  /** The end of a foreground job that is done: its exit status, and its removal. */
  method RemoveFinished(os: Os, jobs: JobManager, j: nat) returns (code: int)
    requires ShellValid(os, jobs) && j < |jobs.jobs| && jobs.jobs[j].status == JobDone
    modifies jobs`jobs
    ensures ShellValid(os, jobs) && jobs.jobs == old(jobs.jobs)[..j] + old(jobs.jobs)[j + 1..]
    ensures Some(code) == ExitStatus(old(jobs.jobs)[j]) && 0 <= code <= 255
  {
    hide Inv, Accounted, Os.Valid, WithoutGroup;
    ghost var w := World(os.kids, jobs.jobs);
    ExitStatusIsLastStage(w, j);
    DoneMeansReaped(w, j);
    DroppedInOrder(w, j);
    JobHasGroup(w, j);
    var status := jobs.ExitStatusOf(j);
    jobs.Remove(jobs.jobs[j].pgid);
    code := match status case Some(x) => x case None => ERR_UNKNOWN;
  }

  lemma JobHasGroup(w: World, j: nat)
    requires Inv(w) && j < |w.jobs|
    ensures w.jobs[j].pgid > 0 && w.jobs[j].pgid in w.kids && Consistent(w.jobs[j])
  {
  }

  /** Undoing a launch before it was registered leaves the shell in order. */
  lemma RestoredInOrder(kids: map<Pid, RunState>, jobs: seq<Job>, kids': map<Pid, RunState>)
    requires Inv(World(kids, jobs)) && Accounted(kids, jobs) && RolledBack(kids, [], kids')
    ensures Inv(World(kids', jobs)) && Accounted(kids', jobs)
  {
    forall j | 0 <= j < |jobs| ensures JobTracks(jobs[j], kids') {
      JobTracksEvolves(jobs[j], kids, kids');
    }
    assert forall p :: p in kids' && !kids'[p].Reaped? ==> p in kids && !kids[p].Reaped?;
  }

  lemma LaunchedMembers(id: int, pids: seq<Pid>, p: Pid)
    requires pids != []
    ensures Member(LaunchedJob(id, pids), p) <==> p in pids
  {
    var job := LaunchedJob(id, pids);
    if p in pids {
      var i :| 0 <= i < |pids| && pids[i] == p;
      assert job.processes[i].pid == p;
    }
  }

  /** A registered launch leaves the shell in order. */
  lemma LaunchedInOrder(kids: map<Pid, RunState>, jobs: seq<Job>, id: int, pids: seq<Pid>, kids': map<Pid, RunState>)
    requires Inv(World(kids, jobs)) && Accounted(kids, jobs) && Grown(kids, pids, kids') && pids != []
    ensures var jobs' := [LaunchedJob(id, pids)] + jobs;
      Inv(World(kids', jobs')) && Accounted(kids', jobs')
  {
    var jobs' := [LaunchedJob(id, pids)] + jobs;
    LaunchKeeps(World(kids, jobs), id, pids, kids');
    hide Inv, LaunchedJob, Member;
    forall p | p in kids' && !kids'[p].Reaped? ensures Recorded(jobs', p) {
      LaunchedMembers(id, pids, p);
      if p in pids {
        assert Member(jobs'[0], p);
      } else {
        assert Evolves(kids[p], kids'[p]);
        var j :| 0 <= j < |jobs| && Member(jobs[j], p);
        assert jobs'[j + 1] == jobs[j];
      }
    }
  }

  /** A failed wait: the members are killed and reaped, then the job is dropped. */
  lemma AbandonedInOrder(w: World, pids: seq<Pid>, kids': map<Pid, RunState>)
    requires Inv(w) && Accounted(w.kids, w.jobs) && w.jobs != []
    requires RolledBack(w.kids, pids, kids') && kids'.Keys == w.kids.Keys
    requires forall p :: Member(w.jobs[0], p) <==> p in pids
    ensures WithoutGroup(w.jobs, w.jobs[0].pgid) == w.jobs[1..]
    ensures Inv(World(kids', w.jobs[1..])) && Accounted(kids', w.jobs[1..])
  {
    hide Inv, Accounted, RolledBack, Member, WithoutGroup;
    GroupIsUnique(w, 0);
    assert w.jobs[..0] + w.jobs[1..] == w.jobs[1..];
    OthersEvolve(w.kids, pids, kids');
    DropJobKeeps(w, 0, kids');
    AbandonedAccounted(w, pids, kids');
  }

  lemma OthersEvolve(before: map<Pid, RunState>, pids: seq<Pid>, kids: map<Pid, RunState>)
    requires RolledBack(before, pids, kids)
    ensures before.Keys <= kids.Keys && forall p :: p in before && p !in pids ==> Evolves(before[p], kids[p])
  {
  }

  lemma AbandonedAccounted(w: World, pids: seq<Pid>, kids': map<Pid, RunState>)
    requires Accounted(w.kids, w.jobs) && w.jobs != []
    requires RolledBack(w.kids, pids, kids') && kids'.Keys == w.kids.Keys
    requires forall p :: Member(w.jobs[0], p) <==> p in pids
    ensures Accounted(kids', w.jobs[1..])
  {
    hide Member;
    forall p | p in kids' && !kids'[p].Reaped? ensures Recorded(w.jobs[1..], p) {
      assert p !in pids && !w.kids[p].Reaped?;
      var j :| 0 <= j < |w.jobs| && Member(w.jobs[j], p);
      assert w.jobs[1..][j - 1] == w.jobs[j];
    }
  }

  /** The wait failed: kill and reap the members, take the terminal back, drop the job. */
  method AbandonJob(os: Os, log: GateLog, jobs: JobManager, tty: Tty, pids: seq<Pid>)
    requires ShellValid(os, jobs) && ModesKept(os, jobs, tty) && log.Valid()
    requires pids != [] && pids[0] > 0 && jobs.jobs != [] && jobs.jobs[0].pgid == pids[0]
    requires forall p :: Member(jobs.jobs[0], p) <==> p in pids
    requires forall i :: 0 <= i < |pids| ==> pids[i] in os.kids
    requires !log.gate.writeOpen && log.gate.listed && log.gate.forked == |pids|
    requires tty.initialized || tty.restoreFailed || tty.AtPrompt()
    modifies os`kids, os`killed, log, jobs`jobs, tty`owner, tty`modes, tty`restoreFailed, tty`refused
    ensures ShellValid(os, jobs) && ModesKept(os, jobs, tty) && log.Valid()
    ensures tty.restoreFailed || tty.AtPrompt()
    ensures jobs.jobs == old(jobs.jobs)[1..] && (forall p :: p in pids ==> p in os.kids && os.kids[p].Reaped?)
    ensures SameRelease(old(log.gate), log.gate) && os.kids.Keys == old(os.kids.Keys)
  {
    hide Inv, Accounted, RolledBack, GateLog.Valid, Os.Valid, Member, WithoutGroup, Kept;
    ghost var w := World(os.kids, jobs.jobs);
    Rollback(os, log, pids);
    RolledBackMembers(w.kids, pids, os.kids);
    AbandonedInOrder(w, pids, os.kids);
    KeptDrop(os.kids.Keys, w.jobs, tty.history, tty.initialized, 0);
    assert w.jobs[..0] + w.jobs[1..] == w.jobs[1..];
    if tty.initialized {
      var _ := tty.Restore();
    }
    jobs.Remove(pids[0]);
    log.Do(Gate.RemoveJob);
  }

  /** `job_wait_foreground` against the kernel, for a job that owns the terminal if there is one.
      It is looked at until waitpid has returned `patience` times. */
  method WaitFor(os: Os, jobs: JobManager, tty: Tty, j: nat, patience: nat) returns (verdict: Verdict)
    requires ShellValid(os, jobs) && ModesKept(os, jobs, tty) && j < |jobs.jobs|
    requires tty.initialized ==> tty.owner == jobs.jobs[j].pgid
    modifies os`kids, os`failures, os`waits, jobs`jobs, tty`modes, tty`history
    ensures ShellValid(os, jobs) && ModesKept(os, jobs, tty)
    ensures os.kids.Keys == old(os.kids.Keys)
    ensures |jobs.jobs| == |old(jobs.jobs)| && jobs.jobs == old(jobs.jobs)[j := jobs.jobs[j]]
    ensures SamePids(old(jobs.jobs)[j], jobs.jobs[j])
    ensures verdict == Settled ==> jobs.jobs[j].status != JobRunning
    ensures verdict == StillWaiting ==> jobs.jobs[j].status == JobRunning && os.waits == old(os.waits) + patience
    ensures os.failures == old(os.failures) + if verdict == Error then [NoWait] else []
    ensures var pgid := old(jobs.jobs)[j].pgid;
      tty.history == old(tty.history) + if tty.initialized then [Runs(pgid, pgid)] else []
  {
    hide Inv, Accounted, WaitLoop, Delivered, Os.Valid, Kept, SamePids;
    var job := jobs.jobs[j];
    ghost var w := World(os.kids, jobs.jobs);
    JobHasGroup(w, j);
    if tty.initialized {
      KeptRuns(w, tty.history, j);
    }
    tty.JobRuns(job.pgid);
    assert !tty.initialized ==> tty.history == old(tty.history);
    assert Kept(w.kids.Keys, w.jobs, tty.history, tty.initialized);
    var rets := Returns(os, job, job, patience);
    var v, _ := jobs.WaitForeground(j, rets);
    verdict := v;
    WaitedInOrder(w, j, rets, World(os.kids, jobs.jobs));
    WaitVerdict(job, rets);
    KeptSame(w.kids.Keys, w.jobs, tty.history, tty.initialized, j, jobs.jobs[j]);
  }

  lemma RolledBackMembers(before: map<Pid, RunState>, pids: seq<Pid>, kids: map<Pid, RunState>)
    requires RolledBack(before, pids, kids) && forall i :: 0 <= i < |pids| ==> pids[i] in before
    ensures forall p :: p in pids ==> p in kids && kids[p].Reaped?
  {
  }

  /** The gate's tokens and children are as they were. */
  predicate SameRelease(p: Gate.Parent, q: Gate.Parent) {
    q.forked == p.forked && q.written == p.written && q.writeOpen == p.writeOpen
  }

  // What a foreground command comes to.

  /** The job of these children, in whatever state. */
  predicate IsJob(job: Job, id: int, pids: seq<Pid>) {
    && job.id == id && |job.processes| == |pids| > 0 && job.pgid == pids[0]
    && forall i :: 0 <= i < |pids| ==> job.processes[i].pid == pids[i]
  }

  predicate AllGone(kids: map<Pid, RunState>, pids: seq<Pid>) {
    forall i :: 0 <= i < |pids| ==> pids[i] in kids && kids[pids[i]].Reaped?
  }

  /** What the outside world has seen: failed calls, kills, returns of waitpid, refusals of the
      terminal and what happened there. */
  datatype Ledger = Ledger(failures: seq<Failure>, killed: set<Pid>, waits: nat, refused: nat, history: seq<ModeEvent>)

  ghost function LedgerOf(os: Os, tty: Tty): Ledger
    reads os`failures, os`killed, os`waits, tty`refused, tty`history
  {
    Ledger(os.failures, os.killed, os.waits, tty.refused, tty.history)
  }

  /** A command before it is run: the table, the next job id, the children it will get, how many
      returns of waitpid one looks at, and the ledger. */
  datatype Case = Case(older: seq<Job>, id: int, pids: seq<Pid>, background: bool, patience: nat, was: Ledger)

  /** And after. */
  datatype Effect = Effect(kids: map<Pid, RunState>, jobs: seq<Job>, gate: Gate.Parent, out: Outcome, launched: bool,
                           now: Ledger, restoreFailed: bool)

  ghost function CaseOf(os: Os, jobs: JobManager, tty: Tty, pids: seq<Pid>, background: bool, patience: nat): Case
    reads os`failures, os`killed, os`waits, jobs, tty`refused, tty`history
  {
    Case(jobs.jobs, jobs.nextId, pids, background, patience, LedgerOf(os, tty))
  }

  ghost function EffectOf(os: Os, jobs: JobManager, log: GateLog, tty: Tty, out: Outcome, launched: bool): Effect
    reads os`kids, os`failures, os`killed, os`waits, jobs`jobs, log`gate, tty`refused, tty`history, tty`restoreFailed
  {
    Effect(os.kids, jobs.jobs, log.gate, out, launched, LedgerOf(os, tty), tty.restoreFailed)
  }

  /** No call failed and nobody was killed. */
  predicate Quiet(was: Ledger, now: Ledger) {
    now.failures == was.failures && now.killed == was.killed
  }

  /** Still running after all the patience. Or finished by itself, gone and reported with the status
      of its last stage. Or stopped and still listed. Or, only after a failed wait, killed and gone.
      Or, only after a failed restore of the terminal, still listed. */
  ghost predicate Concluded(c: Case, e: Effect) {
    if e.out == Blocked then
      Quiet(c.was, e.now) && e.now.waits == c.was.waits + c.patience && AtFront(c, e) && e.jobs[0].status == JobRunning
    else if e.out.code >= 0 then
      Quiet(c.was, e.now) && (Finished(c, e) || (e.out.code == OK && AtFront(c, e) && e.jobs[0].status == JobStopped))
    else
      && e.out.code == ERR_UNKNOWN
      && if e.now.failures == c.was.failures then
           e.restoreFailed && Quiet(c.was, e.now) && AtFront(c, e) && e.jobs[0].status != JobRunning
         else e.now.failures == c.was.failures + [NoWait] && e.jobs == c.older && AllGone(e.kids, c.pids)
  }

  predicate AtFront(c: Case, e: Effect) {
    e.jobs != [] && e.jobs[1..] == c.older && IsJob(e.jobs[0], c.id, c.pids)
  }

  predicate Finished(c: Case, e: Effect)
    requires e.out.Code?
  {
    && e.jobs == c.older && c.pids != [] && AllGone(e.kids, c.pids)
    && e.out.code == EndingStatus(e.kids[c.pids[|c.pids| - 1]].end)
  }

  lemma FinishedConcludes(w: World, c: Case, e: Effect, code: int)
    requires Inv(w) && w.jobs != [] && IsJob(w.jobs[0], c.id, c.pids) && w.jobs[0].status != JobRunning
    requires w.jobs[1..] == c.older && e.kids == w.kids && e.out == Code(code) && Quiet(c.was, e.now)
    requires FinishedAs(w.jobs, 0, e.jobs, code, e.restoreFailed)
    ensures Concluded(c, e)
    ensures |e.jobs| < |w.jobs| ==> AllGone(w.kids, c.pids)
    ensures |e.jobs| == |w.jobs| && code == OK ==> w.jobs[0].status == JobStopped
  {
    JobHasGroup(w, 0);
    if w.jobs[0].status == JobDone {
      ExitStatusIsLastStage(w, 0);
      DoneMeansReaped(w, 0);
      MembersAreKids(w, c.id, c.pids);
    }
    hide Inv, ExitStatus, Member;
    assert w.jobs[..0] + w.jobs[1..] == w.jobs[1..];
  }

  lemma MembersAreKids(w: World, id: int, pids: seq<Pid>)
    requires Inv(w) && w.jobs != [] && IsJob(w.jobs[0], id, pids)
    ensures forall i :: 0 <= i < |pids| ==> pids[i] in w.kids && Member(w.jobs[0], pids[i])
  {
    assert JobTracks(w.jobs[0], w.kids);
    forall i | 0 <= i < |pids| ensures pids[i] in w.kids && Member(w.jobs[0], pids[i]) {
      assert w.jobs[0].processes[i].pid == pids[i];
    }
  }

  /** The foreground half of execute_single and execute_pipeline. */
  method WaitAndFinish(os: Os, log: GateLog, jobs: JobManager, tty: Tty, pids: seq<Pid>, patience: nat, ghost id: int)
    returns (out: Outcome)
    requires ShellValid(os, jobs) && ModesKept(os, jobs, tty) && log.Valid()
    requires pids != [] && pids[0] > 0 && jobs.jobs != [] && jobs.jobs[0] == LaunchedJob(id, pids)
    requires forall i :: 0 <= i < |pids| ==> pids[i] in os.kids
    requires !log.gate.writeOpen && log.gate.listed && log.gate.forked == |pids|
    requires if tty.initialized then tty.owner == pids[0] else tty.restoreFailed || tty.AtPrompt()
    modifies os`kids, os`failures, os`killed, os`waits, log, jobs`jobs, tty
    ensures ShellValid(os, jobs) && ModesKept(os, jobs, tty) && log.Valid()
    ensures os.kids.Keys == old(os.kids.Keys)
    ensures out != Blocked ==> tty.restoreFailed || tty.AtPrompt()
    ensures Concluded(Case(old(jobs.jobs)[1..], id, pids, false, patience, old(LedgerOf(os, tty))),
                      EffectOf(os, jobs, log, tty, out, true))
    ensures Appends(old(tty.history), tty.history, pids[0]) && SameRelease(old(log.gate), log.gate)
    ensures tty.initialized ==> old(tty.history) + [Runs(pids[0], pids[0])] <= tty.history
    ensures tty.initialized && out == Code(OK) && |jobs.jobs| == |old(jobs.jobs)| ==>
      EndsInStop(old(tty.history), tty.history, pids[0])
  {
    hide Inv, Accounted, GateLog.Valid, Os.Valid, Member, LaunchedJob, WithoutGroup, Kept, SamePids, ExitStatus;
    hide Gate.ParentInit, FinishedAs, IsJob, Concluded, AllGone;
    LaunchedGroup(id, pids);
    ghost var before := Case(jobs.jobs[1..], id, pids, false, patience, LedgerOf(os, tty));
    var verdict := WaitFor(os, jobs, tty, 0, patience);
    ghost var w' := World(os.kids, jobs.jobs);
    LaunchedKeepsGroup(id, pids, jobs.jobs[0]);
    match verdict {
      case StillWaiting =>
        out := Blocked;
        ConcludedBlocked(before, EffectOf(os, jobs, log, tty, out, true));
      case Error =>
        AbandonJob(os, log, jobs, tty, pids);
        out := Code(ERR_UNKNOWN);
        ConcludedAbandoned(before, EffectOf(os, jobs, log, tty, out, true));
      case Settled =>
        out := FinishSettled(os, log, jobs, tty, pids, before);
    }
  }

  /** The end of the foreground half: the wait has settled. */
  method FinishSettled(os: Os, log: GateLog, jobs: JobManager, tty: Tty, pids: seq<Pid>, ghost c: Case)
    returns (out: Outcome)
    requires ShellValid(os, jobs) && ModesKept(os, jobs, tty) && log.Valid()
    requires pids != [] && c.pids == pids && jobs.jobs != [] && jobs.jobs[1..] == c.older
    requires IsJob(jobs.jobs[0], c.id, pids) && jobs.jobs[0].status != JobRunning && jobs.jobs[0].pgid == pids[0]
    requires Quiet(c.was, LedgerOf(os, tty))
    requires !log.gate.writeOpen && log.gate.listed && log.gate.forked == |pids|
    requires if tty.initialized then tty.owner == pids[0] else tty.restoreFailed || tty.AtPrompt()
    modifies log, jobs`jobs, tty
    ensures ShellValid(os, jobs) && ModesKept(os, jobs, tty) && log.Valid()
    ensures out.Code? && (tty.restoreFailed || tty.AtPrompt())
    ensures Concluded(c, EffectOf(os, jobs, log, tty, out, true))
    ensures Appends(old(tty.history), tty.history, pids[0]) && SameRelease(old(log.gate), log.gate)
    ensures tty.initialized && out == Code(OK) && |jobs.jobs| == |old(jobs.jobs)| ==>
      EndsInStop(old(tty.history), tty.history, pids[0])
  {
    hide Inv, Accounted, GateLog.Valid, Os.Valid, Kept, FinishedAs, IsJob, Concluded;
    ghost var w := World(os.kids, jobs.jobs);
    var code := FinishForeground(os, jobs, tty, 0);
    out := Code(code);
    ghost var e := EffectOf(os, jobs, log, tty, out, true);
    FinishedConcludes(w, c, e, code);
    if |jobs.jobs| < |w.jobs| {
      LogReaps(log, |pids|);
      log.Do(Gate.RemoveJob);
    }
    ConcludedWhateverGate(c, e, log.gate);
  }

  lemma ConcludedBlocked(c: Case, e: Effect)
    requires e.out == Blocked && Quiet(c.was, e.now) && e.now.waits == c.was.waits + c.patience
    requires AtFront(c, e) && e.jobs[0].status == JobRunning
    ensures Concluded(c, e)
  {
  }

  lemma ConcludedAbandoned(c: Case, e: Effect)
    requires e.out == Code(ERR_UNKNOWN) && e.now.failures == c.was.failures + [NoWait] && e.jobs == c.older
    requires forall p :: p in c.pids ==> p in e.kids && e.kids[p].Reaped?
    ensures Concluded(c, e)
  {
  }

  lemma ConcludedWhateverGate(c: Case, e: Effect, gate: Gate.Parent)
    requires Concluded(c, e)
    ensures Concluded(c, e.(gate := gate))
  {
  }

  lemma LaunchedGroup(id: int, pids: seq<Pid>)
    requires pids != []
    ensures LaunchedJob(id, pids).pgid == pids[0]
  {
  }

  lemma WaitVerdict(job: Job, rets: seq<WaitReturn>)
    requires Consistent(job)
    ensures var r := WaitLoop(job, rets);
      && (r.verdict == Settled ==> r.job.status != JobRunning)
      && (r.verdict == StillWaiting ==> r.job.status == JobRunning)
    decreases |rets|
  {
    var r := WaitLoop(job, rets);
    if rets != [] && job.status == JobRunning && !Fatal(job, rets[0]) {
      ApplyReturnKeeps(job, rets[0]);
      WaitVerdict(ApplyReturn(job, rets[0]), rets[1..]);
    }
  }

  lemma LaunchedKeepsGroup(id: int, pids: seq<Pid>, job: Job)
    requires pids != [] && SamePids(LaunchedJob(id, pids), job)
    ensures job.pgid == pids[0] && IsJob(job, id, pids) && forall p :: Member(job, p) <==> p in pids
  {
    SamePidsMembers(LaunchedJob(id, pids), job);
    forall p ensures Member(job, p) <==> p in pids {
      LaunchedMembers(id, pids, p);
    }
  }

  // ---------------------------------------------------------------- whole commands

  /** `startup_gate_create`; a failing fcntl closes both ends again. */
  method CreateGate(os: Os) returns (ok: bool, g0: int, g1: int)
    modifies os`fds, os`failures
    ensures ok ==> GateFds(old(os.fds), g0, g1) && os.fds == WithGate(old(os.fds), g0, g1)
    ensures !ok ==> os.fds == old(os.fds)
    ensures WhyNot(old(os.failures), os.failures, if ok then OK else ERR_PIPE, false)
  {
    ok, g0, g1 := os.Pipe(GateEnd(false), GateEnd(true));
    if ok {
      var fails := os.Fails(NoCloexec);   // set_cloexec on both ends
      if fails {
        os.Close(g0);
        os.Close(g1);
        return false, -1, -1;
      }
    }
  }

  /** Descriptors the shell may hold between commands. */
  predicate IdleTable(fds: Table) {
    Plain(fds) && forall fd :: fd in fds ==> fd >= 0
  }

  /** What a launch comes to. In the background: released and listed in front, and nothing failed.
      In the foreground: released, and concluded. Not launched: the table as before, every child
      reaped. */
  ghost predicate Came(c: Case, e: Effect) {
    if e.launched then
      && e.gate.forked == e.gate.written == |c.pids| > 0 && !e.gate.writeOpen
      && (forall i :: 0 <= i < |c.pids| ==> c.pids[i] in e.kids)
      && (if c.background then e.out == Code(OK) && e.jobs == [LaunchedJob(c.id, c.pids)] + c.older && e.now == c.was
          else Concluded(c, e))
    else e.out.Code? && e.out.code < 0 && e.jobs == c.older && Gate.AllReaped(e.gate) && e.now.history == c.was.history
  }

  /** Why a command was not launched: one call failed, and this is its code; or the terminal refused;
      or, with no call failing, it has the code excused beforehand. */
  predicate Excused(was: Ledger, now: Ledger, out: Outcome, excuse: Option<int>) {
    out.Code? &&
    (|| FailedOnce(was.failures, now.failures, out.code)
     || (now.failures == was.failures && now.refused > was.refused && out.code == ERR_UNKNOWN)
     || (now.failures == was.failures && excuse == Some(out.code)))
  }

  /** All that is promised of a command. */
  ghost predicate Carried(c: Case, e: Effect, terminal: bool, excuse: Option<int>) {
    Came(c, e) && Told(c, e, terminal) && (!e.launched ==> Excused(c.was, e.now, e.out, excuse))
  }

  /** A foreground job on a terminal has run there as its owner, and if it stopped, that was noted
      last. The history has events of this job only. */
  predicate Told(c: Case, e: Effect, terminal: bool) {
    && (if c.pids == [] then e.now.history == c.was.history else Appends(c.was.history, e.now.history, c.pids[0]))
    && (terminal && e.launched && !c.background ==>
          c.pids != [] && c.was.history + [Runs(c.pids[0], c.pids[0])] <= e.now.history)
    && (terminal && !c.background && e.out == Code(OK) && |e.jobs| > |c.older| ==>
          c.pids != [] && EndsInStop(c.was.history, e.now.history, c.pids[0]))
  }

  lemma CameShape(c: Case, e: Effect)
    requires Came(c, e)
    ensures e.jobs == c.older || (e.jobs != [] && e.jobs[1..] == c.older)
    ensures !e.launched ==> e.jobs == c.older
  {
  }

  lemma CameToNothing(c: Case, e: Effect)
    requires !e.launched && e.out.Code? && e.out.code < 0 && e.jobs == c.older && Gate.AllReaped(e.gate)
    requires e.now.history == c.was.history
    ensures Came(c, e) && forall terminal :: Told(c, e, terminal)
  {
  }

  lemma CameUp(c: Case, e: Effect)
    requires e.gate.forked == e.gate.written == |c.pids| > 0 && !e.gate.writeOpen && e.launched
    requires forall i :: 0 <= i < |c.pids| ==> c.pids[i] in e.kids
    requires c.background ==> e.out == Code(OK) && e.jobs == [LaunchedJob(c.id, c.pids)] + c.older && e.now == c.was
    requires !c.background ==> Concluded(c, e)
    ensures Came(c, e)
  {
  }

  /** Both execute functions from the closing of gate[0] on, with `kids0` the children
      before the forks. */
  method LaunchAndWait(os: Os, log: GateLog, jobs: JobManager, tty: Tty, g1: int, pids: seq<Pid>, background: bool,
                       patience: nat, ghost kids0: map<Pid, RunState>)
    returns (out: Outcome, launched: bool)
    requires os.Valid() && Inv(World(kids0, jobs.jobs)) && Accounted(kids0, jobs.jobs) && Grown(kids0, pids, os.kids)
    requires Kept(kids0.Keys, jobs.jobs, tty.history, tty.initialized)
    requires pids != [] && log.Valid()
    requires log.gate == Gate.ParentInit(!background && tty.initialized).(forked := |pids|, readOpen := false)
    requires g1 in os.fds && (tty.restoreFailed || tty.AtPrompt())
    modifies os`fds, os`kids, os`failures, os`killed, os`waits, log, jobs, tty
    ensures os.fds == old(os.fds) - {g1}
    ensures ShellValid(os, jobs) && ModesKept(os, jobs, tty)
    ensures out != Blocked ==> tty.restoreFailed || tty.AtPrompt()
    ensures log.Valid()
    ensures Carried(old(CaseOf(os, jobs, tty, pids, background, patience)), EffectOf(os, jobs, log, tty, out, launched),
                    tty.initialized, None)
    ensures !launched ==> RolledBack(kids0, [], os.kids)
  {
    GrownFresh(kids0, pids, os.kids);
    hide Inv, Accounted, RolledBack, Grown, GateLog.Valid, Os.Valid, LaunchedJob, Kept, Gate.ParentInit, Concluded;
    hide Came, EvolvesAll, Gate.AllReaped, Told, FailedOnce, Carried, Excused;
    ghost var grown, older, id := os.kids, jobs.jobs, jobs.nextId;
    ghost var c := CaseOf(os, jobs, tty, pids, background, patience);
    var code := Launch(os, log, jobs, tty, g1, pids, background);
    if code != OK {
      UndoneInOrder(kids0, pids, grown, os.kids, older, tty.history, tty.initialized);
      NotCarried(c, EffectOf(os, jobs, log, tty, Code(code), false), tty.initialized, None);
      return Code(code), false;
    }
    GrownEvolves(kids0, pids, grown, os.kids);
    launched := true;
    assert c == Case(older, id, pids, background, patience, LedgerOf(os, tty));
    out := SeeThrough(os, log, jobs, tty, pids, background, patience, kids0, older, id);
    CarriedOn(c, EffectOf(os, jobs, log, tty, out, true), tty.initialized, None);
  }

  lemma UndoneInOrder(kids0: map<Pid, RunState>, pids: seq<Pid>, grown: map<Pid, RunState>, kids: map<Pid, RunState>,
                      jobs: seq<Job>, history: seq<ModeEvent>, terminal: bool)
    requires Inv(World(kids0, jobs)) && Accounted(kids0, jobs) && Kept(kids0.Keys, jobs, history, terminal)
    requires Grown(kids0, pids, grown) && RolledBack(grown, pids, kids) && kids.Keys == grown.Keys
    ensures Inv(World(kids, jobs)) && Accounted(kids, jobs) && Kept(kids.Keys, jobs, history, terminal)
    ensures RolledBack(kids0, [], kids)
  {
    hide Inv, Accounted, Kept, Grown;
    GrownThenRolledBack(kids0, pids, grown, kids);
    AllRestored(kids0, jobs, kids, history, terminal);
  }

  lemma NotCarried(c: Case, e: Effect, terminal: bool, excuse: Option<int>)
    requires !e.launched && e.out.Code? && e.out.code < 0 && e.jobs == c.older && Gate.AllReaped(e.gate)
    requires e.now.history == c.was.history && Excused(c.was, e.now, e.out, excuse)
    ensures Carried(c, e, terminal, excuse)
  {
    hide Gate.AllReaped;
    CameToNothing(c, e);
  }

  /** The exits before the job is listed. */
  lemma NotStarted(c: Case, e: Effect, terminal: bool, code: int, tooMany: bool)
    requires !e.launched && e.out == Code(code) && code < 0 && e.jobs == c.older && Gate.AllReaped(e.gate)
    requires e.now.history == c.was.history && WhyNot(c.was.failures, e.now.failures, code, tooMany)
    ensures Carried(c, e, terminal, if tooMany then Some(ERR_UNKNOWN) else None)
  {
    hide Gate.AllReaped, Carried;
    NotCarried(c, e, terminal, if tooMany then Some(ERR_UNKNOWN) else None);
  }

  lemma AllRestored(kids: map<Pid, RunState>, jobs: seq<Job>, kids': map<Pid, RunState>, history: seq<ModeEvent>,
                    terminal: bool)
    requires Inv(World(kids, jobs)) && Accounted(kids, jobs) && RolledBack(kids, [], kids')
    requires Kept(kids.Keys, jobs, history, terminal)
    ensures Inv(World(kids', jobs)) && Accounted(kids', jobs) && Kept(kids'.Keys, jobs, history, terminal)
  {
    hide Inv, Accounted, Kept;
    RestoredInOrder(kids, jobs, kids');
    RolledBackKeys(kids, kids');
    KeptGrow(kids.Keys, jobs, history, terminal, kids'.Keys);
  }

  lemma WhyNotAnyway(before: seq<Failure>, after: seq<Failure>, code: int, tooMany: bool)
    requires WhyNot(before, after, code, false)
    ensures WhyNot(before, after, code, tooMany)
  {
  }

  lemma CarriedOn(c: Case, e: Effect, terminal: bool, excuse: Option<int>)
    requires Came(c, e) && Told(c, e, terminal) && e.launched
    ensures Carried(c, e, terminal, excuse)
  {
  }

  /** Both execute functions from the closing of gate[1] on. */
  method SeeThrough(os: Os, log: GateLog, jobs: JobManager, tty: Tty, pids: seq<Pid>, background: bool, patience: nat,
                    ghost kids0: map<Pid, RunState>, ghost older: seq<Job>, ghost id: int)
    returns (out: Outcome)
    requires os.Valid() && Inv(World(kids0, older)) && Accounted(kids0, older) && Grown(kids0, pids, os.kids)
    requires Kept(kids0.Keys, older, tty.history, tty.initialized)
    requires pids != [] && jobs.jobs == [LaunchedJob(id, pids)] + older
    requires log.Valid() && log.gate.forked == log.gate.written == |pids| && !log.gate.writeOpen && log.gate.listed
    requires if background || !tty.initialized then tty.restoreFailed || tty.AtPrompt() else tty.owner == pids[0]
    modifies os`kids, os`failures, os`killed, os`waits, log, jobs`jobs, tty
    ensures ShellValid(os, jobs) && ModesKept(os, jobs, tty) && log.Valid()
    ensures out != Blocked ==> tty.restoreFailed || tty.AtPrompt()
    ensures var c := Case(older, id, pids, background, patience, old(LedgerOf(os, tty)));
      var e := EffectOf(os, jobs, log, tty, out, true);
      Came(c, e) && Told(c, e, tty.initialized)
  {
    GrownFresh(kids0, pids, os.kids);
    LaunchedInOrder(kids0, older, id, pids, os.kids);
    NewJobModes(id, pids);
    hide Inv, Accounted, Grown, GateLog.Valid, Os.Valid, LaunchedJob, Kept, Concluded, Came;
    KeptLaunch(kids0.Keys, older, tty.history, tty.initialized, os.kids.Keys, LaunchedJob(id, pids));
    ghost var was := LedgerOf(os, tty);
    out := Code(OK);
    if !background {
      assert ([LaunchedJob(id, pids)] + older)[1..] == older;
      out := WaitAndFinish(os, log, jobs, tty, pids, patience, id);
    }
    CameUp(Case(older, id, pids, background, patience, was),
           EffectOf(os, jobs, log, tty, out, true));
  }

  lemma GrownFresh(before: map<Pid, RunState>, pids: seq<Pid>, kids: map<Pid, RunState>)
    requires Grown(before, pids, kids)
    ensures forall i :: 0 <= i < |pids| ==> pids[i] > 0 && pids[i] !in before && pids[i] in kids
    ensures before.Keys <= kids.Keys
  {
  }

  lemma NewJobModes(id: int, pids: seq<Pid>)
    requires pids != []
    ensures LaunchedJob(id, pids).pgid == pids[0] && LaunchedJob(id, pids).modes == None
  {
  }

  /** `execute_pipeline` for a chain of n commands. Whatever fails: the shell's descriptor table
      is as before, every child is reaped or in the job table, older jobs are untouched, the
      gate was worked in order, and the terminal is the shell's again unless the job still runs.
      If nothing fails: n stages with their own pipes, registered and released, and in the
      foreground concluded with the status of the last stage. */
  method ExecutePipeline(os: Os, log: GateLog, jobs: JobManager, tty: Tty, n: nat, background: bool, patience: nat)
    returns (out: Outcome, launched: bool, ghost pids: seq<Pid>, ghost g0: int, ghost g1: int, ghost rs: seq<int>,
             ghost ws: seq<int>)
    requires n > 0 && ShellValid(os, jobs) && ModesKept(os, jobs, tty) && IdleTable(os.fds)
    requires log.Valid() && log.gate == Gate.ParentInit(!background && tty.initialized)
    requires tty.restoreFailed || tty.AtPrompt()
    modifies os, log, jobs, tty
    ensures os.fds == old(os.fds)
    ensures ShellValid(os, jobs) && ModesKept(os, jobs, tty)
    ensures out != Blocked ==> tty.restoreFailed || tty.AtPrompt()
    ensures log.Valid()
    ensures Carried(old(CaseOf(os, jobs, tty, pids, background, patience)), EffectOf(os, jobs, log, tty, out, launched),
                    tty.initialized, if n > MAX_PIPELINE then Some(ERR_UNKNOWN) else None)
    ensures launched ==>
      && |pids| == n <= MAX_PIPELINE && |rs| == n - 1
      && Launchable(old(os.fds), g0, g1, {}, rs, ws)
      && BornAs(os.born, WithGate(old(os.fds), g0, g1), rs, ws, pids)
    ensures NewEvents(old(tty.history), tty.history, old(os.kids.Keys))
    ensures !launched ==> RolledBack(old(os.kids), [], os.kids)
  {
    hide Inv, Accounted, RolledBack, Grown, GateLog.Valid, Os.Valid, BornAs, Kept, Concluded, FailedOnce, Launchable;
    hide Came, Told, Carried, Excused, WhyNot, Gate.AllReaped, NewEvents, WithGate;
    ghost var kids0, c0 := os.kids, CaseOf(os, jobs, tty, [], background, patience);
    launched, pids := false, [];
    var code, children, b;
    code, children, g0, b, rs, ws := StartPipeline(os, log, n);
    pids, g1 := children, b;
    ghost var c := c0.(pids := pids);
    if code != OK {
      AllRestored(kids0, jobs.jobs, os.kids, tty.history, tty.initialized);
      out := Code(code);
      NotStarted(c, EffectOf(os, jobs, log, tty, out, false), tty.initialized, code, n > MAX_PIPELINE);
      NothingNew(tty.history, kids0.Keys);
      return;
    }
    WhyNotQuiet(c0.was.failures, os.failures, n > MAX_PIPELINE);
    GrownFresh(kids0, pids, os.kids);
    assert c == CaseOf(os, jobs, tty, pids, background, patience);
    out, launched := LaunchAndWait(os, log, jobs, tty, b, children, background, patience, kids0);
    CarriedIsNew(c, EffectOf(os, jobs, log, tty, out, launched), tty.initialized, None, kids0.Keys);
    ExcusedAnyway(c, EffectOf(os, jobs, log, tty, out, launched), tty.initialized,
                  if n > MAX_PIPELINE then Some(ERR_UNKNOWN) else None);
  }

  /** The gate, the fork loop and the closing of gate[0] of `execute_pipeline`. */
  method StartPipeline(os: Os, log: GateLog, n: nat)
    returns (code: int, pids: seq<Pid>, ghost g0: int, g1: int, ghost rs: seq<int>, ghost ws: seq<int>)
    requires n > 0 && os.Valid() && log.Valid() && IdleTable(os.fds)
    requires log.gate == Gate.ParentInit(log.gate.wantsTerminal)
    modifies os, log
    ensures os.Valid() && log.Valid() && code <= 0
    ensures code == OK ==>
      && |pids| == n <= MAX_PIPELINE && |rs| == n - 1 && Launchable(old(os.fds), g0, g1, {}, rs, ws)
      && BornAs(os.born, WithGate(old(os.fds), g0, g1), rs, ws, pids)
      && g1 in os.fds && os.fds - {g1} == old(os.fds) && Grown(old(os.kids), pids, os.kids)
      && log.gate == old(log.gate).(forked := n, readOpen := false) && os.killed == old(os.killed)
    ensures code != OK ==> os.fds == old(os.fds) && RolledBack(old(os.kids), [], os.kids) && Gate.AllReaped(log.gate)
    ensures os.polled == old(os.polled) && os.waits == old(os.waits)
    ensures WhyNot(old(os.failures), os.failures, code, n > MAX_PIPELINE)
  {
    hide RolledBack, Grown, GateLog.Valid, Os.Valid, BornAs, Held, WhyNot, Gate.AllReaped;
    ghost var base, failures := os.fds, os.failures;
    pids, g0, g1, rs, ws := [], -1, -1, [], [];
    NothingForked(log.gate);
    NothingRolledBack(os.kids, os.kids);
    var ok, a, b := CreateGate(os);
    if !ok {
      WhyNotAnyway(failures, os.failures, ERR_PIPE, n > MAX_PIPELINE);
      code := ERR_PIPE;
      return;
    }
    g0, g1 := a, b;
    WhyNotQuiet(failures, os.failures, false);
    code, pids, rs, ws := StartStages(os, log, base, a, b, n);
    if code == OK {
      HeldNothing(WithGate(base, a, b), n);
      GateCloses(base, a, b);
      os.Close(a);
      log.Do(Gate.CloseReadEnd);
    }
  }

  lemma NothingForked(p: Gate.Parent)
    requires p == Gate.ParentInit(p.wantsTerminal)
    ensures Gate.AllReaped(p)
  {
  }

  lemma WhyNotQuiet(before: seq<Failure>, after: seq<Failure>, tooMany: bool)
    requires WhyNot(before, after, OK, tooMany)
    ensures after == before
  {
  }

  lemma CarriedIsNew(c: Case, e: Effect, terminal: bool, excuse: Option<int>, kids: set<Pid>)
    requires Carried(c, e, terminal, excuse) && (c.pids != [] ==> c.pids[0] !in kids)
    ensures NewEvents(c.was.history, e.now.history, kids)
  {
    hide Came, Excused;
  }

  lemma ExcusedAnyway(c: Case, e: Effect, terminal: bool, excuse: Option<int>)
    requires Carried(c, e, terminal, None)
    ensures Carried(c, e, terminal, excuse)
  {
    hide Came, Told, FailedOnce;
  }

  /** The history went on, with events of new jobs only. */
  predicate NewEvents(before: seq<ModeEvent>, after: seq<ModeEvent>, kids: set<Pid>) {
    before <= after && forall k :: |before| <= k < |after| ==> after[k].pgid !in kids
  }

  lemma RolledBackKeys(before: map<Pid, RunState>, kids: map<Pid, RunState>)
    requires RolledBack(before, [], kids)
    ensures before.Keys <= kids.Keys
  {
  }

  lemma HeldNothing(gated: Table, k: nat)
    ensures Held(gated, k, -1, -1, -1) == gated
  {
  }

  lemma GateCloses(base: Table, g0: int, g1: int)
    requires GateFds(base, g0, g1)
    ensures WithGate(base, g0, g1) - {g0} - {g1} == base
    ensures g0 in WithGate(base, g0, g1) && g1 in WithGate(base, g0, g1) - {g0}
  {
  }

  /** `execute_single`. */
  method ExecuteSingle(os: Os, log: GateLog, jobs: JobManager, tty: Tty, background: bool, patience: nat)
    returns (out: Outcome, launched: bool, ghost pids: seq<Pid>)
    requires ShellValid(os, jobs) && ModesKept(os, jobs, tty) && IdleTable(os.fds)
    requires log.Valid() && log.gate == Gate.ParentInit(!background && tty.initialized)
    requires tty.restoreFailed || tty.AtPrompt()
    modifies os, log, jobs, tty
    ensures os.fds == old(os.fds)
    ensures ShellValid(os, jobs) && ModesKept(os, jobs, tty)
    ensures out != Blocked ==> tty.restoreFailed || tty.AtPrompt()
    ensures log.Valid()
    ensures Carried(old(CaseOf(os, jobs, tty, pids, background, patience)), EffectOf(os, jobs, log, tty, out, launched),
                    tty.initialized, None)
    ensures launched ==> |pids| == 1
    ensures NewEvents(old(tty.history), tty.history, old(os.kids.Keys))
    ensures !launched ==> RolledBack(old(os.kids), [], os.kids)
  {
    hide Inv, Accounted, RolledBack, Grown, GateLog.Valid, Os.Valid, Kept, Concluded, Came, Told, FailedOnce, Carried;
    hide Excused, WhyNot, Gate.AllReaped;
    ghost var kids0, c0 := os.kids, CaseOf(os, jobs, tty, [], background, patience);
    launched, pids := false, [];
    NothingForked(log.gate);
    var code, pid, g1 := StartSingle(os, log);
    if code != OK {
      AllRestored(kids0, jobs.jobs, os.kids, tty.history, tty.initialized);
      out := Code(code);
      NotStarted(c0, EffectOf(os, jobs, log, tty, out, false), tty.initialized, code, false);
      return;
    }
    WhyNotQuiet(c0.was.failures, os.failures, false);
    pids := [pid];
    ghost var c := c0.(pids := pids);
    GrownFresh(kids0, [pid], os.kids);
    var alone := os.Fails(NoGroup);   // setpgid_parent
    if alone {
      ghost var grown := os.kids;
      assert [pid][0] in os.kids;
      AbortLaunch(os, log, jobs, g1, [pid], false);
      UndoneInOrder(kids0, [pid], grown, os.kids, jobs.jobs, tty.history, tty.initialized);
      out := Code(ERR_UNKNOWN);
      WhyNotGroup(c.was.failures);
      NotStarted(c, EffectOf(os, jobs, log, tty, out, false), tty.initialized, ERR_UNKNOWN, false);
      return;
    }
    assert c == CaseOf(os, jobs, tty, pids, background, patience);
    out, launched := LaunchAndWait(os, log, jobs, tty, g1, [pid], background, patience, kids0);
    CarriedIsNew(c, EffectOf(os, jobs, log, tty, out, launched), tty.initialized, None, kids0.Keys);
  }

  lemma WhyNotGroup(before: seq<Failure>)
    ensures WhyNot(before, before + [NoGroup], ERR_UNKNOWN, false)
  {
  }

  /** The gate, the fork and the closing of gate[0] of `execute_single`. */
  method StartSingle(os: Os, log: GateLog) returns (code: int, pid: Pid, g1: int)
    requires os.Valid() && log.Valid() && log.gate == Gate.ParentInit(log.gate.wantsTerminal)
    modifies os, log
    ensures os.Valid() && log.Valid() && code <= 0
    ensures code == OK ==>
      && g1 in os.fds && os.fds - {g1} == old(os.fds) && Grown(old(os.kids), [pid], os.kids)
      && log.gate == old(log.gate).(forked := 1, readOpen := false)
    ensures code != OK ==> os.fds == old(os.fds) && RolledBack(old(os.kids), [], os.kids) && Gate.AllReaped(log.gate)
    ensures os.killed == old(os.killed) && os.polled == old(os.polled) && os.waits == old(os.waits)
    ensures WhyNot(old(os.failures), os.failures, code, false)
  {
    NothingRolledBack(os.kids, os.kids);
    GrownNothing(os.kids);
    hide RolledBack, Grown, GateLog.Valid, Os.Valid, GateFds, WithGate;
    var ok, g0, g;
    ok, g0, g := CreateGate(os);
    pid, g1 := 0, g;
    if !ok {
      return ERR_PIPE, pid, g1;
    }
    GateCloses(old(os.fds), g0, g1);
    var child := ForkChild(os, log, [], old(os.kids));
    if child < 0 {
      os.Close(g0);
      os.Close(g1);
      return ERR_FORK, pid, g1;
    }
    pid := child;
    assert [] + [pid] == [pid];
    os.Close(g0);
    log.Do(Gate.CloseReadEnd);
    code := OK;
  }

  lemma GrownNothing(kids: map<Pid, RunState>)
    ensures Grown(kids, [], kids)
  {
  }

  /** `execute_command`: the job limit, then one of the two. An unchanged limit is never exceeded. */
  method ExecuteCommand(os: Os, log: GateLog, jobs: JobManager, tty: Tty, n: nat, background: bool, patience: nat,
                        maxJob: int)
    returns (out: Outcome, launched: bool, ghost pids: seq<Pid>)
    requires n > 0 && ShellValid(os, jobs) && ModesKept(os, jobs, tty) && IdleTable(os.fds)
    requires log.Valid() && log.gate == Gate.ParentInit(!background && tty.initialized)
    requires tty.restoreFailed || tty.AtPrompt()
    modifies os, log, jobs, tty
    ensures os.fds == old(os.fds)
    ensures ShellValid(os, jobs) && ModesKept(os, jobs, tty)
    ensures out != Blocked ==> tty.restoreFailed || tty.AtPrompt()
    ensures log.Valid()
    ensures Carried(old(CaseOf(os, jobs, tty, pids, background, patience)), EffectOf(os, jobs, log, tty, out, launched),
                    tty.initialized, ExcuseOf(old(CountActive(jobs.jobs)), maxJob, n))
    ensures launched ==> |pids| == n
    ensures NewEvents(old(tty.history), tty.history, old(os.kids.Keys))
    ensures !launched ==> RolledBack(old(os.kids), [], os.kids)
    ensures old(CountActive(jobs.jobs)) >= maxJob ==> out == Code(ERR_JOB) && !launched && os.kids == old(os.kids)
    ensures old(CountActive(jobs.jobs)) <= maxJob ==> CountActive(jobs.jobs) <= maxJob
  {
    hide Inv, Accounted, GateLog.Valid, Os.Valid, Kept, RolledBack, Carried, Gate.AllReaped, NewEvents;
    ghost var c0 := CaseOf(os, jobs, tty, [], background, patience);
    var active := jobs.Count();
    if active >= maxJob {
      NothingRolledBack(os.kids, os.kids);
      NothingForked(log.gate);
      out, launched, pids := Code(ERR_JOB), false, [];
      NotCarried(c0, EffectOf(os, jobs, log, tty, out, false), tty.initialized, Some(ERR_JOB));
      NothingNew(tty.history, os.kids.Keys);
      return;
    }
    if n > 1 {
      var o, l, ps, _, _, _, _ := ExecutePipeline(os, log, jobs, tty, n, background, patience);
      out, launched, pids := o, l, ps;
    } else {
      out, launched, pids := ExecuteSingle(os, log, jobs, tty, background, patience);
    }
    CarriedShape(c0.(pids := pids), EffectOf(os, jobs, log, tty, out, launched), tty.initialized,
                 if n > MAX_PIPELINE then Some(ERR_UNKNOWN) else None);
  }

  lemma NothingNew(history: seq<ModeEvent>, kids: set<Pid>)
    ensures NewEvents(history, history, kids)
  {
  }

  lemma CarriedShape(c: Case, e: Effect, terminal: bool, excuse: Option<int>)
    requires Carried(c, e, terminal, excuse)
    ensures e.jobs == c.older || (e.jobs != [] && e.jobs[1..] == c.older)
    ensures !e.launched ==> e.jobs == c.older
  {
    hide Told, Excused, Concluded;
    CameShape(c, e);
  }

  /** What excuses a command from being launched although no call failed. */
  function ExcuseOf(active: nat, maxJob: int, n: nat): Option<int> {
    if active >= maxJob then Some(ERR_JOB) else if n > MAX_PIPELINE then Some(ERR_UNKNOWN) else None
  }
}

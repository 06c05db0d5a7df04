/** A whole session of the shell: commands, fg, bg and child events in any order. */
module Shell {
  import opened Options
  import opened Kernel
  import opened Jobs
  import opened JobControl
  import opened Descriptors
  import opened Terminal
  import opened System
  import opened Executor
  import Builtins
  import Parser
  import ParserRoundTrip
  import Reaper

  type Stages = n: nat | n > 0 witness 1

  /** No line the parser accepts has too many stages for the executor. */
  lemma ParsedIsNeverTooLong(line: string, status: Parser.Int32)
    requires Parser.Parse(line, status).Parsed?
    ensures 1 <= |Parser.Parse(line, status).chain.stages| <= MAX_PIPELINE
  {
    hide Parser.Parse;
    ParserRoundTrip.AtMost64Stages(line, status);
  }

  /** What may come next at the prompt. */
  datatype Input = Command(stages: Stages, background: bool) | Fg | Bg | ChildSignal

  /** The shell between two inputs. */
  ghost predicate InOrder(os: Os, jobs: JobManager, tty: Tty, fds: Table, maxJob: int)
    reads os, jobs, tty
  {
    && ShellValid(os, jobs) && ModesKept(os, jobs, tty)
    && os.fds == fds && CountActive(jobs.jobs) <= maxJob
  }

  lemma CountReplaced(before: seq<Job>, j: nat, after: seq<Job>)
    requires j < |before| && Active(before[j]) && |after| == |before| && after == before[j := after[j]]
    ensures CountActive(after) <= CountActive(before)
  {
    CountOnlyFinishes(before, after);
  }

  lemma FgKeepsCount(kids: map<Pid, RunState>, before: seq<Job>, j: nat, after: seq<Job>, out: Outcome,
                     resumed: Option<Modes>, was: Ledger, now: Ledger, patience: nat, terminal: bool, found: Modes,
                     restoreFailed: bool)
    requires j < |before| && Active(before[j])
    requires Builtins.FgCame(kids, before, j, after, out, resumed, was, now, patience, terminal, found, restoreFailed)
    ensures CountActive(after) <= CountActive(before)
  {
    hide CountActive, SamePids, Builtins.MembersGone;
    CountWithout(before, j);
    if |after| == |before| {
      assert after == before ==> after == before[j := after[j]];
      CountReplaced(before, j, after);
    }
  }

  /** One input and what came of it: the outcome, the group it ran in the foreground, whether it ran
      there (for fg, on a terminal), whether that job stayed in the table, the modes it was resumed
      under, and its part of the history. */
  datatype Deed = Deed(
    input: Input, out: Outcome, pgid: Pid, ran: bool, stayed: bool, resumed: Option<Modes>, from: nat, to: nat)

  /** Its part of the history holds what it did: a resumption comes first, then the run as the owner
      of the terminal, and a job that stayed, stopped, left its stop as the last event. */
  predicate Noted(d: Deed, terminal: bool, history: seq<ModeEvent>) {
    && d.from <= d.to <= |history|
    && (forall k :: d.from <= k < d.to ==> history[k].pgid == d.pgid)
    && (terminal && d.resumed.Some? ==>
          d.from < d.to && history[d.from].Wake? && history[d.from].under == d.resumed.value)
    && (terminal && d.ran ==>
          var k := d.from + if d.resumed.Some? then 1 else 0; k < d.to && history[k] == Runs(d.pgid, d.pgid))
    && (terminal && d.stayed && d.out == Code(OK) ==> d.from < d.to && history[d.to - 1].Stop?)
  }

  lemma NotedStays(d: Deed, terminal: bool, history: seq<ModeEvent>, later: seq<ModeEvent>)
    requires Noted(d, terminal, history) && history <= later
    ensures Noted(d, terminal, later)
  {
    assert forall k :: 0 <= k < |history| ==> later[k] == history[k];
  }

  /** The shell at one moment, as values. */
  datatype Snapshot = Snapshot(world: World, nextId: int, polled: seq<(Pid, Poll)>, modes: Modes, ledger: Ledger,
                               restoreFailed: bool)

  ghost function At(os: Os, jobs: JobManager, tty: Tty): Snapshot
    reads os, jobs, tty
  {
    Snapshot(World(os.kids, jobs.jobs), jobs.nextId, os.polled, tty.modes, LedgerOf(os, tty), tty.restoreFailed)
  }

  /** What a command comes to, whatever the gate did. */
  ghost predicate CommandDeed(d: Deed, n: nat, background: bool, patience: nat, maxJob: int, s: Snapshot, s': Snapshot,
                              terminal: bool)
  {
    exists pids, gate, launched ::
      && Carried(Case(s.world.jobs, s.nextId, pids, background, patience, s.ledger),
                 Effect(s'.world.kids, s'.world.jobs, gate, d.out, launched, s'.ledger, s'.restoreFailed),
                 terminal, ExcuseOf(CountActive(s.world.jobs), maxJob, n))
      && (launched ==> |pids| == n) && d.resumed.None?
      && d.pgid == (if pids == [] then 0 else pids[0]) && d.ran == (launched && !background)
      && d.stayed == (!background && |s'.world.jobs| > |s.world.jobs|)
  }

  ghost predicate FgDeed(d: Deed, patience: nat, s: Snapshot, s': Snapshot, terminal: bool) {
    var j, before := Builtins.FirstWith(s.world.jobs, true), s.world.jobs;
    if j == |before| then
      d.out == Code(ERR_JOB) && s'.world.jobs == before && d.from == d.to && d.resumed.None? && !d.ran && !d.stayed
    else
      && Builtins.FgCame(s'.world.kids, before, j, s'.world.jobs, d.out, d.resumed, s.ledger, s'.ledger, patience,
                         terminal, s.modes, s'.restoreFailed)
      && d.pgid == before[j].pgid && d.stayed == (|s'.world.jobs| == |before|)
      && (d.ran <==> s'.ledger.history != s.ledger.history)
  }

  ghost predicate ChildDeed(s: Snapshot, s': Snapshot) {
    exists poll ::
      && s'.polled == s.polled + Reaper.Asked(Reaper.Undone(s.world.jobs), poll)
      && Reaper.Served(s.world, poll, s'.world)
      && s'.world.jobs == WithoutDone(ReapAll(s.world.jobs, poll))
  }

  ghost predicate BgDeed(d: Deed, s: Snapshot, s': Snapshot) {
    var j, before := Builtins.FirstWith(s.world.jobs, false), s.world.jobs;
    if d.out == Code(OK) then
      j < |before| && s'.world.jobs == before[j := Continue(before[j])]
    else
      && d.out == Code(ERR_JOB) && s'.world.jobs == before
      && s'.ledger.failures == s.ledger.failures + if j < |before| then [NoContinue] else []
  }

  ghost predicate Did(d: Deed, patience: nat, maxJob: int, s: Snapshot, s': Snapshot, terminal: bool) {
    match d.input
    case Command(n, background) => CommandDeed(d, n, background, patience, maxJob, s, s', terminal)
    case Fg => FgDeed(d, patience, s, s', terminal)
    case Bg => BgDeed(d, s, s') && s'.ledger.history == s.ledger.history
    case ChildSignal => ChildDeed(s, s') && s'.ledger == s.ledger
  }

  /** One input. The session is over when the shell is still waiting after all the patience. */
  method Handle(os: Os, jobs: JobManager, tty: Tty, input: Input, ghost fds: Table, patience: nat, maxJob: int)
    returns (out: Outcome, ghost deed: Deed)
    requires InOrder(os, jobs, tty, fds, maxJob) && IdleTable(fds) && (tty.restoreFailed || tty.AtPrompt())
    modifies os, jobs, tty
    ensures InOrder(os, jobs, tty, fds, maxJob) && (out == Blocked || tty.restoreFailed || tty.AtPrompt())
    ensures old(tty.history) <= tty.history
    ensures deed.input == input && deed.out == out && deed.from == |old(tty.history)| && deed.to == |tty.history|
    ensures Noted(deed, tty.initialized, tty.history)
    ensures Did(deed, patience, maxJob, old(At(os, jobs, tty)), At(os, jobs, tty), tty.initialized)
  {
    hide Inv, Accounted, Kept, Os.Valid, RolledBack, CountActive, Noted, CommandDeed, FgDeed, BgDeed, ChildDeed;
    ghost var from, s := |tty.history|, At(os, jobs, tty);
    match input
    case Command(n, background) =>
      out, deed := HandleCommand(os, jobs, tty, n, background, patience, maxJob);
    case Fg =>
      out, deed := HandleFg(os, jobs, tty, patience);
    case Bg =>
      out := HandleBg(os, jobs, tty);
      deed := Deed(input, out, 0, false, false, None, from, from);
      NotedNothing(deed, tty.initialized, tty.history);
      BgAnyDeed(deed, s, At(os, jobs, tty));
    case ChildSignal =>
      out := HandleChild(os, jobs, tty);
      deed := Deed(input, out, 0, false, false, None, from, from);
      NotedNothing(deed, tty.initialized, tty.history);
  }

  /** What bg did, before it is told. */
  ghost predicate BgOutcome(out: Outcome, s: Snapshot, s': Snapshot) {
    BgDeed(Deed(Bg, out, 0, false, false, None, 0, 0), s, s')
  }

  lemma BgAnyDeed(d: Deed, s: Snapshot, s': Snapshot)
    requires BgOutcome(d.out, s, s')
    ensures BgDeed(d, s, s')
  {
    hide Continue;
  }

  method HandleBg(os: Os, jobs: JobManager, tty: Tty) returns (out: Outcome)
    requires ShellValid(os, jobs) && ModesKept(os, jobs, tty)
    modifies os`kids, os`failures, os`continued, jobs`jobs
    ensures ShellValid(os, jobs) && ModesKept(os, jobs, tty) && out.Code?
    ensures CountActive(jobs.jobs) <= old(CountActive(jobs.jobs))
    ensures BgOutcome(out, old(At(os, jobs, tty)), At(os, jobs, tty))
  {
    hide Inv, Accounted, Kept, Os.Valid, CountActive, Continue;
    ghost var before := jobs.jobs;
    var code := Builtins.Bg(os, jobs, tty);
    if code == OK {
      CountReplaced(before, Builtins.FirstWith(before, false), jobs.jobs);
    }
    out := Code(code);
  }

  method HandleChild(os: Os, jobs: JobManager, tty: Tty) returns (out: Outcome)
    requires ShellValid(os, jobs) && ModesKept(os, jobs, tty)
    modifies os`kids, os`polled, jobs`jobs
    ensures ShellValid(os, jobs) && ModesKept(os, jobs, tty) && out == Code(OK)
    ensures CountActive(jobs.jobs) <= old(CountActive(jobs.jobs))
    ensures ChildDeed(old(At(os, jobs, tty)), At(os, jobs, tty))
  {
    hide Inv, Accounted, Kept, Os.Valid, CountActive, PolledAll, ReapAll, Reaper.Served, Reaper.Asked, WithoutDone;
    ghost var poll := Reaper.ChildEvent(os, jobs, tty);
    out := Code(OK);
  }

  lemma NotedNothing(d: Deed, terminal: bool, history: seq<ModeEvent>)
    requires d.from == d.to == |history| && !d.stayed && !d.ran && d.resumed.None?
    ensures Noted(d, terminal, history)
  {
  }

  method HandleCommand(os: Os, jobs: JobManager, tty: Tty, n: Stages, background: bool, patience: nat, maxJob: int)
    returns (out: Outcome, ghost deed: Deed)
    requires ShellValid(os, jobs) && ModesKept(os, jobs, tty) && IdleTable(os.fds)
    requires CountActive(jobs.jobs) <= maxJob && (tty.restoreFailed || tty.AtPrompt())
    modifies os, jobs, tty
    ensures ShellValid(os, jobs) && ModesKept(os, jobs, tty) && os.fds == old(os.fds)
    ensures CountActive(jobs.jobs) <= maxJob && (out == Blocked || tty.restoreFailed || tty.AtPrompt())
    ensures old(tty.history) <= tty.history
    ensures deed.input == Command(n, background) && deed.out == out
    ensures deed.from == |old(tty.history)| && deed.to == |tty.history|
    ensures Noted(deed, tty.initialized, tty.history)
    ensures CommandDeed(deed, n, background, patience, maxJob, old(At(os, jobs, tty)), At(os, jobs, tty),
                        tty.initialized)
  {
    hide Inv, Accounted, Kept, Os.Valid, Carried, RolledBack, CountActive, Noted;
    ghost var s, active := At(os, jobs, tty), CountActive(jobs.jobs);
    var log := new GateLog(!background && tty.initialized);
    var launched;
    ghost var pids;
    out, launched, pids := ExecuteCommand(os, log, jobs, tty, n, background, patience, maxJob);
    ghost var pgid := if pids == [] then 0 else pids[0];
    ghost var stayed := !background && |jobs.jobs| > |s.world.jobs|;
    deed := Deed(Command(n, background), out, pgid, launched && !background, stayed, None, |s.ledger.history|,
                 |tty.history|);
    CommandNoted(deed, tty.initialized, ExcuseOf(active, maxJob, n),
                 Case(s.world.jobs, s.nextId, pids, background, patience, s.ledger),
                 EffectOf(os, jobs, log, tty, out, launched));
  }

  lemma CommandNoted(d: Deed, terminal: bool, excuse: Option<int>, c: Case, e: Effect)
    requires Carried(c, e, terminal, excuse) && d.out == e.out && d.resumed.None?
    requires d.from == |c.was.history| && d.to == |e.now.history| && d.pgid == if c.pids == [] then 0 else c.pids[0]
    requires d.ran == (e.launched && !c.background) && d.stayed == (!c.background && |e.jobs| > |c.older|)
    ensures Noted(d, terminal, e.now.history) && c.was.history <= e.now.history
  {
    hide Came, Excused;
  }

  method HandleFg(os: Os, jobs: JobManager, tty: Tty, patience: nat) returns (out: Outcome, ghost deed: Deed)
    requires ShellValid(os, jobs) && ModesKept(os, jobs, tty) && (tty.restoreFailed || tty.AtPrompt())
    modifies os`kids, os`failures, os`waits, os`continued, jobs`jobs, tty
    ensures ShellValid(os, jobs) && ModesKept(os, jobs, tty)
    ensures CountActive(jobs.jobs) <= old(CountActive(jobs.jobs))
    ensures out == Blocked || tty.restoreFailed || tty.AtPrompt()
    ensures old(tty.history) <= tty.history && deed.input == Fg && deed.out == out
    ensures deed.from == |old(tty.history)| && deed.to == |tty.history|
    ensures Noted(deed, tty.initialized, tty.history)
    ensures FgDeed(deed, patience, old(At(os, jobs, tty)), At(os, jobs, tty), tty.initialized)
  {
    hide Inv, Accounted, Kept, Os.Valid, CountActive, Builtins.FgCame, Noted;
    ghost var s := At(os, jobs, tty);
    ghost var resumed;
    out, resumed := Builtins.Fg(os, jobs, tty, patience);
    ghost var j := Builtins.FirstWith(s.world.jobs, true);
    ghost var now := LedgerOf(os, tty);
    ghost var from, to := |s.ledger.history|, |tty.history|;
    if j == |s.world.jobs| {
      deed := Deed(Fg, out, 0, false, false, None, from, to);
      NotedNothing(deed, tty.initialized, tty.history);
    } else {
      FgKeepsCount(os.kids, s.world.jobs, j, jobs.jobs, out, resumed, s.ledger, now, patience, tty.initialized,
                   s.modes, tty.restoreFailed);
      ghost var ran := now.history != s.ledger.history;
      deed := Deed(Fg, out, s.world.jobs[j].pgid, ran, |jobs.jobs| == |s.world.jobs|, resumed, from, to);
      FgNoted(deed, os.kids, s.world.jobs, j, jobs.jobs, s.ledger, now, patience, tty.initialized, s.modes,
              tty.restoreFailed);
    }
  }

  lemma FgNoted(d: Deed, kids: map<Pid, RunState>, before: seq<Job>, j: nat, after: seq<Job>, was: Ledger, now: Ledger,
                patience: nat, terminal: bool, found: Modes, restoreFailed: bool)
    requires j < |before|
    requires Builtins.FgCame(kids, before, j, after, d.out, d.resumed, was, now, patience, terminal, found,
                             restoreFailed)
    requires d.from == |was.history| && d.to == |now.history| && d.pgid == before[j].pgid
    requires d.ran == (now.history != was.history) && d.stayed == (|after| == |before|)
    ensures Noted(d, terminal, now.history) && was.history <= now.history
  {
    hide Builtins.FgEnded;
    var events := Builtins.FgEvents(before[j], found);
    if terminal && was.history + events <= now.history {
      assert forall k :: 0 <= k < |events| ==> now.history[|was.history| + k] == events[k];
    }
  }

  /** Where the history stands after the first k deeds. */
  function Upto(deeds: seq<Deed>, k: nat): nat
    requires k <= |deeds|
  {
    if k == 0 then 0 else deeds[k - 1].to
  }

  /** Every deed is in the history, one after the other, and there is nothing else in it. */
  ghost predicate AllNoted(deeds: seq<Deed>, terminal: bool, history: seq<ModeEvent>) {
    && (forall k :: 0 <= k < |deeds| ==> Noted(deeds[k], terminal, history))
    && (forall k :: 0 <= k < |deeds| ==> deeds[k].from == Upto(deeds, k))
    && |history| == Upto(deeds, |deeds|)
  }

  lemma OneMoreNoted(deeds: seq<Deed>, terminal: bool, history: seq<ModeEvent>, d: Deed, later: seq<ModeEvent>)
    requires AllNoted(deeds, terminal, history) && history <= later
    requires Noted(d, terminal, later) && d.from == |history| && d.to == |later|
    ensures AllNoted(deeds + [d], terminal, later)
  {
    hide Noted;
    var more := deeds + [d];
    assert forall k :: 0 <= k <= |deeds| ==> Upto(more, k) == Upto(deeds, k);
    forall k | 0 <= k < |more| ensures Noted(more[k], terminal, later) {
      if k < |deeds| {
        NotedStays(deeds[k], terminal, history, later);
      }
    }
  }

  /** Any session, from a shell without jobs: at every prompt the table follows the kernel, no
      child is forgotten, the descriptors are as at the start, the job limit holds and the
      terminal is the shell's unless the last restore failed. Every input did what it should, from
      one state to the next; the history holds every run in the foreground, stop there and
      resumption, each by the owner of the terminal; and whatever ran in between, a job that stopped
      in the foreground is resumed by fg under exactly the modes it stopped under, provided they
      could be read then. */
  method Session(fds: Table, initialized: bool, shellPgid: Pid, shellModes: Modes, script: seq<Input>,
                 patience: nat, maxJob: nat)
    returns (os: Os, jobs: JobManager, tty: Tty, blocked: bool, ghost deeds: seq<Deed>, ghost states: seq<Snapshot>)
    requires IdleTable(fds) && shellPgid > 0
    ensures InOrder(os, jobs, tty, fds, maxJob)
    ensures blocked || tty.restoreFailed || tty.AtPrompt()
    ensures |deeds| <= |script| && (blocked || |deeds| == |script|)
    ensures forall k :: 0 <= k < |deeds| ==> deeds[k].input == script[k]
    ensures AllNoted(deeds, tty.initialized, tty.history)
    ensures |states| == |deeds| + 1 && states[0].world == World(map[], []) && states[|deeds|] == At(os, jobs, tty)
    ensures forall k :: 0 <= k < |deeds| ==> Did(deeds[k], patience, maxJob, states[k], states[k + 1], tty.initialized)
    ensures ProperHistory(tty.history) && FaithfulResumes(tty.history)
  {
    hide Inv, Accounted, Os.Valid, LastRead, Noted, Did, AllNoted, Upto;
    os := new Os(fds);
    jobs := new JobManager();
    tty := new Tty(initialized, shellPgid, shellModes);
    NothingYet();
    NothingNoted(tty.initialized);
    blocked, deeds, states := false, [], [At(os, jobs, tty)];
    var n := 0;
    while n < |script| && !blocked
      invariant fresh(os) && fresh(jobs) && fresh(tty) && n <= |script| && |deeds| == n
      invariant InOrder(os, jobs, tty, fds, maxJob) && (blocked || tty.restoreFailed || tty.AtPrompt())
      invariant forall k :: 0 <= k < n ==> deeds[k].input == script[k]
      invariant AllNoted(deeds, tty.initialized, tty.history)
      invariant |states| == n + 1 && states[0].world == World(map[], []) && states[n] == At(os, jobs, tty)
      invariant forall k :: 0 <= k < n ==> Did(deeds[k], patience, maxJob, states[k], states[k + 1], tty.initialized)
    {
      ghost var history := tty.history;
      var out, deed := Handle(os, jobs, tty, script[n], fds, patience, maxJob);
      OneMoreNoted(deeds, tty.initialized, history, deed, tty.history);
      blocked, deeds, states, n := out == Blocked, deeds + [deed], states + [At(os, jobs, tty)], n + 1;
    }
    ProperIsFaithful(tty.history);
  }

  lemma NothingNoted(terminal: bool)
    ensures AllNoted([], terminal, [])
  {
  }

  lemma NothingYet()
    ensures Inv(World(map[], [])) && Accounted(map[], []) && CountActive([]) == 0
  {
  }
}

/** The controlling terminal (src/terminal.c): who owns it and in which modes it is. */
module Terminal {
  import opened Options
  import opened Kernel

  type Modes = int

  /** What happens to jobs at the terminal, with the group that owns it at that moment: the shell
      starting to wait for a job in the foreground; a job stopping there under some modes, which
      the shell then tries to read; and `fg` sending SIGCONT under some modes, having found others
      in force. */
  datatype ModeEvent =
    | Runs(pgid: Pid, owner: Pid)
    | Stop(pgid: Pid, owner: Pid, under: Modes, read: Option<Modes>)
    | Wake(pgid: Pid, owner: Pid, found: Modes, under: Modes)

  /** The modes read at the job's last stop at which reading them succeeded. */
  function LastRead(history: seq<ModeEvent>, pgid: Pid): Option<Modes> {
    if history == [] then None
    else
      var last := history[|history| - 1];
      if last.Stop? && last.pgid == pgid && last.read.Some? then last.read
      else LastRead(history[..|history| - 1], pgid)
  }

  /** What event k should look like: the job owns the terminal, modes are read as they are, and a
      job is resumed under the modes last read, or else under those in force. */
  predicate Proper(history: seq<ModeEvent>, k: nat)
    requires k < |history|
  {
    var e := history[k];
    && e.owner == e.pgid
    && match e
       case Runs(_, _) => true
       case Stop(_, _, under, read) => read.Some? ==> read.value == under
       case Wake(_, _, found, under) =>
         var read := LastRead(history[..k], e.pgid);
         under == if read.Some? then read.value else found
  }

  ghost predicate ProperHistory(history: seq<ModeEvent>) {
    forall k :: 0 <= k < |history| ==> Proper(history, k)
  }

  lemma LastReadNext(history: seq<ModeEvent>, e: ModeEvent, pgid: Pid)
    ensures LastRead(history + [e], pgid) ==
      if e.Stop? && e.pgid == pgid && e.read.Some? then e.read else LastRead(history, pgid)
  {
    assert (history + [e])[..|history|] == history;
  }

  lemma {:induction false} NeverRead(history: seq<ModeEvent>, pgid: Pid)
    requires forall k :: 0 <= k < |history| ==> history[k].pgid != pgid
    ensures LastRead(history, pgid) == None
  {
    if history != [] {
      NeverRead(history[..|history| - 1], pgid);
    }
  }

  lemma ProperNext(history: seq<ModeEvent>, e: ModeEvent)
    requires ProperHistory(history) && Proper(history + [e], |history|)
    ensures ProperHistory(history + [e])
  {
    hide LastRead;
    var more := history + [e];
    forall k | 0 <= k < |history| ensures Proper(more, k) {
      assert more[..k] == history[..k];
      assert Proper(history, k);
    }
  }

  /** The history went on, with events of this job only. */
  predicate Appends(before: seq<ModeEvent>, after: seq<ModeEvent>, pgid: Pid) {
    before <= after && forall k :: |before| <= k < |after| ==> after[k].pgid == pgid
  }

  /** The last event is new, and a stop of this job. */
  predicate EndsInStop(before: seq<ModeEvent>, after: seq<ModeEvent>, pgid: Pid) {
    |before| < |after| && after[|after| - 1].Stop? && after[|after| - 1].pgid == pgid
  }

  /** Event i is the job's last stop before event k. */
  predicate LastStop(history: seq<ModeEvent>, i: nat, k: nat) {
    && i < k < |history| && history[i].Stop?
    && forall m :: i < m < k ==> !(history[m].Stop? && history[m].pgid == history[i].pgid)
  }

  lemma {:induction false} ReadSince(history: seq<ModeEvent>, i: nat, k: nat)
    requires LastStop(history, i, k)
    ensures LastRead(history[..k], history[i].pgid) ==
      if history[i].read.Some? then history[i].read else LastRead(history[..i], history[i].pgid)
    decreases k
  {
    assert history[..k] == history[..k - 1] + [history[k - 1]];
    LastReadNext(history[..k - 1], history[k - 1], history[i].pgid);
    if i < k - 1 {
      ReadSince(history, i, k - 1);
    }
  }

  /** Whatever happened in between: a job is resumed under exactly the modes it last stopped
      under, if they could be read then; otherwise under those read at an earlier stop, or
      those the shell had in force, so exactly if these happen to be the same. */
  lemma ResumedAsStopped(history: seq<ModeEvent>, i: nat, k: nat)
    requires ProperHistory(history) && LastStop(history, i, k)
    requires history[k].Wake? && history[k].pgid == history[i].pgid
    ensures history[i].read.Some? ==> history[k].under == history[i].under
    ensures var older := LastRead(history[..i], history[i].pgid);
      history[k].under == history[i].under <==>
        history[i].read.Some? || (if older.Some? then older.value else history[k].found) == history[i].under
  {
    hide LastRead;
    ReadSince(history, i, k);
    assert Proper(history, i) && Proper(history, k);
  }

  /** What a failed read leads to: a job that stopped under modes 5, unread, wakes up under the
      shell's modes 3. */
  lemma UnreadModesAreLost(pgid: Pid)
    ensures var history := [Stop(pgid, pgid, 5, None), Wake(pgid, pgid, 3, 3)];
      ProperHistory(history) && LastStop(history, 0, 1) && history[1].under != history[0].under
  {
    var stop := Stop(pgid, pgid, 5, None);
    var history := [stop, Wake(pgid, pgid, 3, 3)];
    LastReadNext([], stop, pgid);
    assert history[..1] == [] + [stop];
    assert Proper(history, 0) && Proper(history, 1);
  }

  /** A job that stopped under modes that could be read is resumed under those modes. */
  ghost predicate FaithfulResumes(history: seq<ModeEvent>) {
    forall i: nat, k: nat | LastStop(history, i, k) && history[k].Wake? ::
      history[k].pgid == history[i].pgid && history[i].read.Some? ==> history[k].under == history[i].under
  }

  lemma ProperIsFaithful(history: seq<ModeEvent>)
    requires ProperHistory(history)
    ensures FaithfulResumes(history)
  {
    forall i: nat, k: nat |
      LastStop(history, i, k) && history[k].Wake? && history[k].pgid == history[i].pgid && history[i].read.Some?
      ensures history[k].under == history[i].under
    {
      ResumedAsStopped(history, i, k);
    }
  }

  class Tty {
    const initialized: bool
    const shellPgid: Pid
    const shellModes: Modes
    // The device itself, as the kernel keeps it.
    var owner: Pid
    var modes: Modes
    // Whether the last terminal_restore failed; several callers ignore that result.
    ghost var restoreFailed: bool
    // Every foreground run, every stop there and every resumption by fg, in order.
    ghost var history: seq<ModeEvent>
    // How many times the terminal was asked for something in vain.
    ghost var refused: nat

    constructor (initialized: bool, shellPgid: Pid, shellModes: Modes)
      requires shellPgid > 0
      ensures this.initialized == initialized && this.shellPgid == shellPgid && this.shellModes == shellModes
      ensures AtPrompt() && !restoreFailed && history == [] && refused == 0
    {
      this.initialized, this.shellPgid, this.shellModes := initialized, shellPgid, shellModes;
      owner, modes, restoreFailed := shellPgid, shellModes, false;
      history, refused := [], 0;
    }

    /** The shell's group owns the terminal, in the modes the shell found it in. */
    ghost predicate AtPrompt()
      reads this
    {
      initialized ==> owner == shellPgid && modes == shellModes
    }

    /** `terminal_set_foreground`. */
    method SetForeground(pgid: Pid) returns (ok: bool)
      modifies this`owner, this`refused
      ensures refused == old(refused) + if ok then 0 else 1
      ensures !initialized ==> ok && owner == old(owner)
      ensures initialized ==> owner == if ok then pgid else old(owner)
      ensures initialized && pgid == 0 ==> !ok
    {
      if !initialized {
        return true;
      }
      ok := *;
      if pgid <= 0 || !ok {
        refused := refused + 1;
        return false;
      }
      owner := pgid;
    }

    /** `terminal_get_modes`; without a terminal it succeeds and the modes mean nothing. */
    method GetModes() returns (ok: bool, m: Modes)
      ensures initialized && ok ==> m == modes
      ensures !initialized ==> ok
    {
      ok, m := *, 0;
      if !initialized {
        return true, m;
      }
      if ok {
        m := modes;
      }
    }

    /** `terminal_set_modes`. */
    method SetModes(m: Modes) returns (ok: bool)
      modifies this`modes, this`refused
      ensures refused == old(refused) + if ok then 0 else 1
      ensures !initialized ==> ok && modes == old(modes)
      ensures initialized ==> modes == if ok then m else old(modes)
    {
      if !initialized {
        return true;
      }
      ok := *;
      if !ok {
        refused := refused + 1;
        return;
      }
      modes := m;
    }

    /** `terminal_restore`: the group first, then the modes. */
    method Restore() returns (ok: bool)
      modifies this`owner, this`modes, this`restoreFailed, this`refused
      ensures ok ==> AtPrompt()
      ensures refused == old(refused) + if ok then 0 else 1
      ensures restoreFailed == !ok
      ensures !initialized ==> ok && owner == old(owner) && modes == old(modes)
    {
      if !initialized {
        restoreFailed := false;
        return true;
      }
      ok := SetForeground(shellPgid);
      if ok {
        ok := SetModes(shellModes);
      }
      restoreFailed := !ok;
    }

    ghost method NoteStop(pgid: Pid, read: Option<Modes>)
      modifies this`history
      ensures history == old(history) + [Stop(pgid, owner, modes, read)]
    {
      history := history + [Stop(pgid, owner, modes, read)];
    }

    ghost method NoteResume(pgid: Pid, found: Modes)
      modifies this`history
      ensures history == old(history) + [Wake(pgid, owner, found, modes)]
    {
      history := history + [Wake(pgid, owner, found, modes)];
    }

    /** The shell waits for this job. While it owns the terminal it may set any modes; a background
        job may not. */
    method JobRuns(pgid: Pid)
      modifies this`modes, this`history
      ensures history == old(history) + if initialized then [Runs(pgid, owner)] else []
      ensures owner == shellPgid ==> modes == old(modes)
    {
      if initialized {
        history := history + [Runs(pgid, owner)];
      }
      if owner != shellPgid {
        modes := *;
      }
    }
  }
}

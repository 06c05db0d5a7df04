/** The kernel's side of job control: what state a child process is in, which
    report `waitpid` would give for it, and what giving that report changes.
    A child holds at most one pending report, and it describes the child's
    current state: a stop discards an unread "continued" and the reverse. */
module Kernel {
  import opened Options

  type Pid = nat

  newtype ExitCode = x: int | 0 <= x < 256
  newtype Signal = x: int | 1 <= x < 127 witness 1

  /** How a process ended. */
  datatype Ending = Exited(code: ExitCode) | Signaled(sig: Signal)

  /** A decoded wait status. */
  datatype WaitStatus = Ended(end: Ending) | StoppedBy(sig: Signal) | Continued

  /** The state of a child; `unread` says that a report of this state is pending. */
  datatype RunState =
    | Running(unread: bool)
    | Stopped(sig: Signal, unread: bool)
    | Zombie(end: Ending)
    | Reaped(end: Ending)

  predicate Pending(s: RunState) {
    match s
    case Running(unread) => unread
    case Stopped(_, unread) => unread
    case Zombie(_) => true
    case Reaped(_) => false
  }

  /** What `waitpid` reports about a child; `continued` is WCONTINUED, WUNTRACED is always set. */
  function ReportOf(s: RunState, continued: bool): Option<WaitStatus> {
    match s
    case Running(unread) => if unread && continued then Some(Continued) else None
    case Stopped(sig, unread) => if unread then Some(StoppedBy(sig)) else None
    case Zombie(end) => Some(Ended(end))
    case Reaped(_) => None
  }

  /** The child's state once that report has been handed over. */
  function AfterReport(s: RunState, continued: bool): RunState {
    match s
    case Running(unread) => if continued then Running(false) else s
    case Stopped(sig, _) => Stopped(sig, false)
    case Zombie(end) => Reaped(end)
    case Reaped(_) => s
  }

  /** Everything a child can do by itself or through signals of others, in any
      number of steps: stop, continue, end. Only `waitpid` reaps. */
  predicate Evolves(s: RunState, s': RunState) {
    || s' == s
    || ((s.Running? || s.Stopped?) &&
        (s' == Running(true) || (s'.Stopped? && s'.unread) || s'.Zombie?))
  }

  lemma EvolvesTransitive(a: RunState, b: RunState, c: RunState)
    requires Evolves(a, b) && Evolves(b, c)
    ensures Evolves(a, c)
  {
  }

  /** The effect of SIGCONT on one member of the group. */
  function AfterSigcont(s: RunState): RunState {
    if s.Stopped? then Running(true) else s
  }
}

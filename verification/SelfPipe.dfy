/** Signal delivery to the select loop: src/sig.c, src/event.c and the loop of src/shell.c. */
module SelfPipe {

  datatype Event = Child | Interrupt

  const CAPACITY: nat := 65536   // a full pipe makes event_notify give up

  // ---------------------------------------------------------------- the code of sig.c and event.c

  function Written(bytes: nat): nat {
    if bytes < CAPACITY then bytes + 1 else bytes
  }

  /** What is left after one read of the 64-byte drain buffer. */
  function ReadOnce(bytes: nat): nat {
    if bytes <= 64 then 0 else bytes - 64
  }

  function AllOf(arrivals: seq<seq<Event>>): set<Event> {
    set k, i | 0 <= k < |arrivals| && 0 <= i < |arrivals[k]| :: arrivals[k][i]
  }

  class Signals {
    var pending: set<Event>
    var bytes: nat

    constructor ()
      ensures pending == {} && bytes == 0
    {
      pending, bytes := {}, 0;
    }

    method Notify()
      modifies this`bytes
      ensures bytes == Written(old(bytes))
    {
      if bytes < CAPACITY {
        bytes := bytes + 1;
      }
    }

    method Handler(e: Event)
      modifies this
      ensures pending == old(pending) + {e} && bytes == Written(old(bytes))
    {
      pending := pending + {e};
      Notify();
    }

    /** `event_drain`, where `arrivals[k]` are the signals handled before read k. The pipe ends
        empty; no bit is lost. */
    method Drain(arrivals: seq<seq<Event>>) returns (calls: nat)
      modifies this
      ensures bytes == 0
      ensures pending == old(pending) + AllOf(arrivals[..if calls <= |arrivals| then calls else |arrivals|])
      ensures calls > 0
    {
      calls := 0;
      assert AllOf(arrivals[..0]) == {};
      while true
        invariant pending == old(pending) + AllOf(arrivals[..if calls <= |arrivals| then calls else |arrivals|])
        decreases if calls <= |arrivals| then |arrivals| - calls else 0, bytes + (if calls <= |arrivals| then 1 else 0)
      {
        if calls < |arrivals| {
          var batch := arrivals[calls];
          for i := 0 to |batch|
            invariant pending == old(pending) + AllOf(arrivals[..calls]) + set k | 0 <= k < i :: batch[k]
          {
            Handler(batch[i]);
          }
          AllOfOneMore(arrivals, calls);
        }
        calls := calls + 1;
        if bytes == 0 {
          return;
        }
        bytes := ReadOnce(bytes);
      }
    }

    /** `signal_take_events`, with both signals blocked from the read to the clearing; if they
        cannot be blocked it reports nothing and clears nothing. */
    method Take(blocked: bool) returns (events: set<Event>)
      modifies this`pending
      ensures blocked ==> events == old(pending) && pending == {}
      ensures !blocked ==> events == {} && pending == old(pending)
    {
      if !blocked {
        return {};
      }
      events := pending;
      pending := {};
    }
  }

  lemma AllOfOneMore(arrivals: seq<seq<Event>>, n: nat)
    requires n < |arrivals|
    ensures AllOf(arrivals[..n + 1]) == AllOf(arrivals[..n]) + set k | 0 <= k < |arrivals[n]| :: arrivals[n][k]
  {
  }

  // ---------------------------------------------------------------- handler and loop interleaved

  /** Where the loop of shell_run is. The four Take states are inside signal_take_events. */
  datatype Pc =
    | AtSelect
    | Draining(stdin: bool)
    | Drained(stdin: bool)                      // about to block the signals
    | Blocked(stdin: bool)                      // about to read pending_events
    | Copied(stdin: bool, events: set<Event>)   // about to clear it
    | Cleared(stdin: bool, events: set<Event>)  // about to unblock
    | Acting(stdin: bool, events: set<Event>)   // job_reap, prompt
    | Input                                     // reading a byte, running a command

  /** `notifying`: the handler has set its bit and not yet written its byte. */
  datatype Sys = Sys(pending: set<Event>, bytes: nat, notifying: bool, pc: Pc)

  datatype Step =
    | Signal(e: Event)      // the handler starts: pending_events |= bit
    | Notify                // event_notify, and the handler returns
    | Select(stdin: bool)
    | SelectInterrupted
    | ReadBytes
    | ReadAgain             // EAGAIN: the pipe is empty
    | Block
    | BlockFails            // sigprocmask fails: signal_take_events returns no event
    | Copy
    | Clear
    | Unblock
    | Act
    | Finish

  function Init(): Sys {
    Sys({}, 0, false, AtSelect)
  }

  predicate SignalsBlocked(s: Sys) {
    s.notifying || s.pc.Blocked? || s.pc.Copied? || s.pc.Cleared?
  }

  /** The handler preempts the loop: while it runs no other step is possible. Otherwise
      select returns only when something is readable. */
  predicate Enabled(s: Sys, step: Step) {
    match step
    case Signal(_) => !SignalsBlocked(s)
    case Notify => s.notifying
    case Select(stdin) => !s.notifying && s.pc == AtSelect && (s.bytes > 0 || stdin)
    case SelectInterrupted => !s.notifying && s.pc == AtSelect
    case ReadBytes => !s.notifying && s.pc.Draining? && s.bytes > 0
    case ReadAgain => !s.notifying && s.pc.Draining? && s.bytes == 0
    case Block => !s.notifying && s.pc.Drained?
    case BlockFails => !s.notifying && s.pc.Drained?
    case Copy => s.pc.Blocked?
    case Clear => s.pc.Copied?
    case Unblock => s.pc.Cleared?
    case Act => !s.notifying && s.pc.Acting?
    case Finish => !s.notifying && s.pc == Input
  }

  function Do(s: Sys, step: Step): Sys
    requires Enabled(s, step)
  {
    match step
    case Signal(e) => s.(pending := s.pending + {e}, notifying := true)
    case Notify => s.(bytes := Written(s.bytes), notifying := false)
    case Select(stdin) => s.(pc := if s.bytes > 0 then Draining(stdin) else Input)
    case SelectInterrupted => s
    case ReadBytes => s.(bytes := ReadOnce(s.bytes))
    case ReadAgain => s.(pc := Drained(s.pc.stdin))
    case Block => s.(pc := Pc.Blocked(s.pc.stdin))
    case BlockFails => s.(pc := Acting(s.pc.stdin, {}))
    case Copy => s.(pc := Copied(s.pc.stdin, s.pending))
    case Clear => s.(pending := {}, pc := Cleared(s.pc.stdin, s.pc.events))
    case Unblock => s.(pc := Acting(s.pc.stdin, s.pc.events))
    case Act => s.(pc := if s.pc.stdin then Input else AtSelect)
    case Finish => s.(pc := AtSelect)
  }

  /** Between a select that saw the pipe and the clearing of the bits. */
  predicate OnTheWayToTake(s: Sys) {
    s.pc.Draining? || s.pc.Drained? || s.pc.Blocked? || s.pc.Copied?
  }

  /** The loop cannot go to sleep without taking the pending bits first. */
  predicate WillWake(s: Sys) {
    s.bytes > 0 || s.notifying || OnTheWayToTake(s)
  }

  predicate Inv(s: Sys) {
    && (s.pending != {} ==> WillWake(s))
    && (s.notifying ==> s.pending != {} && !s.pc.Blocked? && !s.pc.Copied? && !s.pc.Cleared?)
    && (s.pc.Copied? ==> s.pc.events == s.pending)
  }

  /** The one step that drops a wakeup: the signals cannot be blocked just when a bit is pending
      whose byte has been drained. */
  predicate Misses(s: Sys, step: Step) {
    step == BlockFails && s.pending != {} && s.bytes == 0
  }

  lemma StepKeepsInv(s: Sys, step: Step)
    requires Inv(s) && Enabled(s, step)
    ensures Inv(Do(s, step)) <==> !Misses(s, step)
  {
  }

  ghost predicate Run(ss: seq<Sys>, steps: seq<Step>) {
    && |ss| == |steps| + 1 && ss[0] == Init()
    && forall n :: 0 <= n < |steps| ==> Enabled(ss[n], steps[n]) && ss[n + 1] == Do(ss[n], steps[n])
  }

  /** No step before n drops a wakeup. */
  ghost predicate NoMiss(ss: seq<Sys>, steps: seq<Step>, n: nat)
    requires n <= |steps| < |ss|
  {
    forall k :: 0 <= k < n ==> !Misses(ss[k], steps[k])
  }

  lemma {:induction false} RunInv(ss: seq<Sys>, steps: seq<Step>, n: nat)
    requires Run(ss, steps) && n < |ss| && NoMiss(ss, steps, n)
    ensures Inv(ss[n])
  {
    if n > 0 {
      RunInv(ss, steps, n - 1);
      StepKeepsInv(ss[n - 1], steps[n - 1]);
    }
  }

  /** Over every interleaving: the loop is bound to wake for every pending bit throughout, if and
      only if no step drops a wakeup. */
  lemma WakesExactlyWhen(ss: seq<Sys>, steps: seq<Step>)
    requires Run(ss, steps)
    ensures (forall n :: 0 <= n < |ss| && ss[n].pending != {} ==> WillWake(ss[n])) <==> NoMiss(ss, steps, |steps|)
  {
    if NoMiss(ss, steps, |steps|) {
      forall n | 0 <= n < |ss| && ss[n].pending != {} ensures WillWake(ss[n]) {
        RunInv(ss, steps, n);
      }
    } else {
      var k :| 0 <= k < |steps| && Misses(ss[k], steps[k]);
      assert ss[k + 1] == Do(ss[k], steps[k]);
      assert !WillWake(ss[k + 1]);
    }
  }

  /** What a dropped wakeup looks like: the loop is back at select with a bit pending, the pipe
      empty, and nothing left to do but wait for input. */
  lemma MissedWake()
    ensures var steps := [Signal(Child), Notify, Select(false), ReadBytes, ReadAgain, BlockFails, Act];
      exists ss :: Run(ss, steps) && ss[7] == Sys({Child}, 0, false, AtSelect) && !Enabled(ss[7], Select(false))
  {
    var steps := [Signal(Child), Notify, Select(false), ReadBytes, ReadAgain, BlockFails, Act];
    var p := {Child};
    var ss := [Init(), Sys(p, 0, true, AtSelect), Sys(p, 1, false, AtSelect), Sys(p, 1, false, Draining(false)),
               Sys(p, 0, false, Draining(false)), Sys(p, 0, false, Drained(false)), Sys(p, 0, false, Acting(false, {})),
               Sys(p, 0, false, AtSelect)];
    assert Run(ss, steps);
  }

  /** Over every interleaving in which no wakeup is dropped: when the loop is at select with a
      bit pending, the pipe holds a byte, so select does not block and the loop goes on to drain
      and take. */
  lemma SelectNeverSleepsOnPending(ss: seq<Sys>, steps: seq<Step>, n: nat, stdin: bool)
    requires Run(ss, steps) && n < |ss| && NoMiss(ss, steps, n)
    requires ss[n].pc == AtSelect && !ss[n].notifying && ss[n].pending != {}
    ensures ss[n].bytes > 0
    ensures Enabled(ss[n], Select(stdin)) && Do(ss[n], Select(stdin)).pc == Draining(stdin)
  {
    RunInv(ss, steps, n);
  }

  /** The bit was handed to the loop by a take between steps i and n. */
  ghost predicate Returned(ss: seq<Sys>, steps: seq<Step>, i: nat, n: nat, e: Event)
    requires |ss| == |steps| + 1
  {
    exists k :: i < k < n <= |steps| && steps[k] == Clear && ss[k].pc.Copied? && e in ss[k].pc.events
  }

  /** No signal is lost unless a wakeup is dropped: after any number of further steps the bit has been returned by a
      take, or it is still pending and the loop is bound to wake for it. */
  lemma {:induction false} NoLostSignal(ss: seq<Sys>, steps: seq<Step>, i: nat, n: nat, e: Event)
    requires Run(ss, steps) && i < n <= |steps| && steps[i] == Signal(e) && NoMiss(ss, steps, n)
    ensures Returned(ss, steps, i, n, e) || (e in ss[n].pending && WillWake(ss[n]))
    decreases n - i
  {
    RunInv(ss, steps, n);
    assert ss[n] == Do(ss[n - 1], steps[n - 1]);
    if i + 1 < n {
      NoLostSignal(ss, steps, i, n - 1, e);
      if Returned(ss, steps, i, n - 1, e) {
        var k :| i < k < n - 1 && steps[k] == Clear && ss[k].pc.Copied? && e in ss[k].pc.events;
        assert Returned(ss, steps, i, n, e);
      } else if steps[n - 1] == Clear {
        RunInv(ss, steps, n - 1);
        assert e in ss[n - 1].pc.events;
        assert Returned(ss, steps, i, n, e);
      }
    }
  }
}

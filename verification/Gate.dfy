/** The startup gate of src/executor.c: a pipe at which forked children wait for one
    'G' each. The parent and the children interleave freely. */
module Gate {
  import opened Options

  // ---------------------------------------------------------------- the parent

  datatype ParentAct =
    | Fork
    | CloseReadEnd
    | AddJob
    | AddProcess
    | GiveTerminal
    | WriteToken
    | CloseWriteEnd
    | Reap(child: nat)
    | RemoveJob

  /** What the parent has done so far; `wantsTerminal` is a foreground job on a terminal. */
  datatype Parent = Parent(
    wantsTerminal: bool,
    forked: nat,
    readOpen: bool,
    writeOpen: bool,
    listed: bool,
    added: nat,
    terminalGiven: bool,
    written: nat,
    reaped: set<nat>)

  function ParentInit(wantsTerminal: bool): Parent {
    Parent(wantsTerminal, 0, true, true, false, 0, false, 0, {})
  }

  /** The job and all its processes are in the table, and it owns the terminal if it wants it. */
  predicate Registered(p: Parent) {
    p.listed && p.added == p.forked && (p.wantsTerminal ==> p.terminalGiven)
  }

  predicate AllReaped(p: Parent) {
    forall i: nat :: i < p.forked ==> i in p.reaped
  }

  /** The order that execute_single and execute_pipeline keep; `None` is an act out of order. */
  function ParentDoes(p: Parent, act: ParentAct): Option<Parent> {
    match act
    case Fork =>
      if p.readOpen && p.writeOpen then Some(p.(forked := p.forked + 1)) else None
    case CloseReadEnd =>
      if p.readOpen then Some(p.(readOpen := false)) else None
    case AddJob =>
      if !p.readOpen && p.writeOpen && !p.listed && p.forked > 0 then Some(p.(listed := true)) else None
    case AddProcess =>
      if p.listed && p.writeOpen && p.added < p.forked then Some(p.(added := p.added + 1)) else None
    case GiveTerminal =>
      if p.listed && p.writeOpen && p.added == p.forked && p.wantsTerminal then Some(p.(terminalGiven := true))
      else None
    case WriteToken =>
      if p.writeOpen && Registered(p) && p.written < p.forked then Some(p.(written := p.written + 1)) else None
    case CloseWriteEnd =>
      if p.writeOpen then Some(p.(writeOpen := false)) else None
    case Reap(i) =>
      if !p.writeOpen && i < p.forked then Some(p.(reaped := p.reaped + {i})) else None
    case RemoveJob =>
      if p.listed && AllReaped(p) then Some(p.(listed := false)) else None
  }

  /** The parent's state after a whole sequence of acts. */
  function ParentRuns(p: Parent, acts: seq<ParentAct>): Option<Parent>
    decreases |acts|
  {
    if acts == [] then Some(p)
    else
      match ParentRuns(p, acts[..|acts| - 1])
      case None => None
      case Some(q) => ParentDoes(q, acts[|acts| - 1])
  }

  // ---------------------------------------------------------------- the children

  /** Starting: forked, still holding the write end. Waiting: inside startup_gate_wait. */
  datatype Child = Starting | Waiting | Passed | Dead(hadPassed: bool)

  datatype Step =
    | ParentStep(act: ParentAct)
    | ShutWriteEnd(i: nat)   // close(gate_write)
    | ReadToken(i: nat)      // read returns 'G'
    | ReadEof(i: nat)        // read returns 0, the child exits
    | Die(i: nat)            // killed, or exits before or after the gate

  datatype World = World(parent: Parent, kids: seq<Child>, tokens: nat)

  function Init(wantsTerminal: bool): World {
    World(ParentInit(wantsTerminal), [], 0)
  }

  /** Some process still holds the write end, so an empty pipe blocks instead of ending. */
  predicate HasWriter(w: World) {
    w.parent.writeOpen || exists i :: 0 <= i < |w.kids| && w.kids[i] == Starting
  }

  predicate Enabled(w: World, step: Step) {
    match step
    case ParentStep(act) =>
      && ParentDoes(w.parent, act).Some?
      && (act.Reap? ==> act.child < |w.kids| && w.kids[act.child].Dead?)
    case ShutWriteEnd(i) => i < |w.kids| && w.kids[i] == Starting
    case ReadToken(i) => i < |w.kids| && w.kids[i] == Waiting && w.tokens > 0
    case ReadEof(i) => i < |w.kids| && w.kids[i] == Waiting && w.tokens == 0 && !HasWriter(w)
    case Die(i) => i < |w.kids| && !w.kids[i].Dead?
  }

  function Do(w: World, step: Step): World
    requires Enabled(w, step)
  {
    match step
    case ParentStep(act) =>
      var p := ParentDoes(w.parent, act).value;
      World(p,
            if act.Fork? then w.kids + [Starting] else w.kids,
            if act.WriteToken? then w.tokens + 1 else w.tokens)
    case ShutWriteEnd(i) => w.(kids := w.kids[i := Waiting])
    case ReadToken(i) => w.(kids := w.kids[i := Passed], tokens := w.tokens - 1)
    case ReadEof(i) => w.(kids := w.kids[i := Dead(false)])
    case Die(i) => w.(kids := w.kids[i := Dead(w.kids[i] == Passed)])
  }

  // ---------------------------------------------------------------- the invariant

  predicate WentThrough(c: Child) {
    c == Passed || c == Dead(true)
  }

  function CountThrough(kids: seq<Child>): nat {
    if kids == [] then 0
    else (if WentThrough(kids[0]) then 1 else 0) + CountThrough(kids[1..])
  }

  /** Children that may still read the pipe. */
  function CountUndecided(kids: seq<Child>): nat {
    if kids == [] then 0
    else (if kids[0] == Starting || kids[0] == Waiting then 1 else 0) + CountUndecided(kids[1..])
  }

  predicate Inv(w: World) {
    && |w.kids| == w.parent.forked
    && CountThrough(w.kids) + w.tokens == w.parent.written <= w.parent.forked
    && w.parent.added <= w.parent.forked
    && (forall i: nat :: i in w.parent.reaped && i < |w.kids| ==> w.kids[i].Dead?)
    && (forall i: nat :: i in w.parent.reaped ==> i < |w.kids|)
    && (w.parent.listed ==> !w.parent.readOpen)
    && (w.parent.written > 0 ==> !w.parent.readOpen && (Registered(w.parent) || AllReaped(w.parent)))
    && (w.parent.reaped != {} ==> !w.parent.writeOpen)
  }

  lemma {:induction false} CountThroughUpdate(kids: seq<Child>, i: nat, c: Child)
    requires i < |kids|
    ensures CountThrough(kids[i := c]) == CountThrough(kids)
              - (if WentThrough(kids[i]) then 1 else 0) + (if WentThrough(c) then 1 else 0)
    decreases i
  {
    if i > 0 {
      assert kids[i := c][1..] == kids[1..][i - 1 := c];
      CountThroughUpdate(kids[1..], i - 1, c);
    } else {
      assert kids[i := c][1..] == kids[1..];
    }
  }

  lemma {:induction false} CountThroughFork(kids: seq<Child>)
    ensures CountThrough(kids + [Starting]) == CountThrough(kids)
  {
    if kids != [] {
      assert (kids + [Starting])[1..] == kids[1..] + [Starting];
      CountThroughFork(kids[1..]);
    } else {
      assert (kids + [Starting])[1..] == [];
    }
  }

  lemma {:induction false} CountsFit(kids: seq<Child>)
    ensures CountThrough(kids) + CountUndecided(kids) <= |kids|
    ensures (exists i :: 0 <= i < |kids| && kids[i] == Waiting) ==> CountUndecided(kids) > 0
    ensures (exists i :: 0 <= i < |kids| && WentThrough(kids[i])) ==> CountThrough(kids) > 0
  {
    if kids != [] {
      CountsFit(kids[1..]);
      if exists i :: 0 <= i < |kids| && kids[i] == Waiting {
        var i :| 0 <= i < |kids| && kids[i] == Waiting;
        assert i > 0 ==> kids[1..][i - 1] == Waiting;
      }
      if exists i :: 0 <= i < |kids| && WentThrough(kids[i]) {
        var i :| 0 <= i < |kids| && WentThrough(kids[i]);
        assert i > 0 ==> WentThrough(kids[1..][i - 1]);
      }
    }
  }

  lemma ParentKeepsInv(w: World, act: ParentAct)
    requires Inv(w) && Enabled(w, ParentStep(act))
    ensures Inv(Do(w, ParentStep(act)))
  {
    if act.Fork? {
      CountThroughFork(w.kids);
    }
  }

  lemma ChildKeepsInv(w: World, step: Step)
    requires Inv(w) && Enabled(w, step) && !step.ParentStep?
    ensures Inv(Do(w, step))
  {
    CountThroughUpdate(w.kids, step.i, Do(w, step).kids[step.i]);
  }

  // ---------------------------------------------------------------- runs

  /** A run from an empty gate through any interleaving. */
  ghost predicate Run(ws: seq<World>, steps: seq<Step>, wantsTerminal: bool) {
    && |ws| == |steps| + 1
    && ws[0] == Init(wantsTerminal)
    && forall n :: 0 <= n < |steps| ==> Enabled(ws[n], steps[n]) && ws[n + 1] == Do(ws[n], steps[n])
  }

  lemma InitInv(wantsTerminal: bool)
    ensures Inv(Init(wantsTerminal))
  {
  }

  lemma StepKeepsInv(w: World, step: Step)
    requires Inv(w) && Enabled(w, step)
    ensures Inv(Do(w, step)) && Do(w, step).parent.wantsTerminal == w.parent.wantsTerminal
  {
    if step.ParentStep? {
      ParentKeepsInv(w, step.act);
    } else {
      ChildKeepsInv(w, step);
    }
  }

  lemma {:induction false} RunInv(ws: seq<World>, steps: seq<Step>, wantsTerminal: bool, n: nat)
    requires Run(ws, steps, wantsTerminal) && n < |ws|
    ensures Inv(ws[n]) && ws[n].parent.wantsTerminal == wantsTerminal
  {
    hide Inv, Do, Enabled;
    if n == 0 {
      InitInv(wantsTerminal);
    } else {
      RunInv(ws, steps, wantsTerminal, n - 1);
      StepKeepsInv(ws[n - 1], steps[n - 1]);
    }
  }

  /** A child gets through the gate only at a moment when the job and every one of its
      processes are in the table and, if it is to run on the terminal, it has been given it.
      It uses up exactly one token. */
  lemma PassesOnlyRegistered(ws: seq<World>, steps: seq<Step>, wantsTerminal: bool, n: nat, i: nat)
    requires Run(ws, steps, wantsTerminal) && n < |steps| && i < |ws[n].kids|
    requires !WentThrough(ws[n].kids[i]) && WentThrough(ws[n + 1].kids[i])
    ensures steps[n] == ReadToken(i)
    ensures var p := ws[n].parent;
      p.listed && p.added == p.forked == |ws[n].kids| && (wantsTerminal ==> p.terminalGiven)
    ensures ws[n + 1].tokens == ws[n].tokens - 1
  {
    RunInv(ws, steps, wantsTerminal, n);
    assert ws[n + 1] == Do(ws[n], steps[n]);
    var p := ws[n].parent;
    assert AllReaped(p) ==> i in p.reaped;
  }

  /** Once every token is written there is one for each child that may still ask, so no child
      is ever turned away by end of file. */
  lemma ReleasedNeverEof(ws: seq<World>, steps: seq<Step>, wantsTerminal: bool, n: nat, i: nat)
    requires Run(ws, steps, wantsTerminal) && n < |ws|
    requires ws[n].parent.written == ws[n].parent.forked
    ensures CountUndecided(ws[n].kids) <= ws[n].tokens
    ensures !Enabled(ws[n], ReadEof(i))
  {
    RunInv(ws, steps, wantsTerminal, n);
    CountsFit(ws[n].kids);
  }

  lemma ClosedGateIsFrozen(w: World, step: Step)
    requires Enabled(w, step) && !w.parent.writeOpen
    ensures var p := Do(w, step).parent;
      !p.writeOpen && p.written == w.parent.written && p.forked == w.parent.forked
  {
  }

  lemma {:induction false} WrittenStays(ws: seq<World>, steps: seq<Step>, wantsTerminal: bool, m: nat, n: nat)
    requires Run(ws, steps, wantsTerminal) && m <= n < |ws| && !ws[m].parent.writeOpen
    ensures !ws[n].parent.writeOpen && ws[n].parent.written == ws[m].parent.written
    ensures ws[n].parent.forked == ws[m].parent.forked
    decreases n - m
  {
    hide Do, Enabled;
    if m < n {
      WrittenStays(ws, steps, wantsTerminal, m, n - 1);
      ClosedGateIsFrozen(ws[n - 1], steps[n - 1]);
    }
  }

  /** If the parent closes the gate without writing, no child gets through, then or later. */
  lemma ClosedUnwrittenPassesNone(ws: seq<World>, steps: seq<Step>, wantsTerminal: bool, m: nat, n: nat, i: nat)
    requires Run(ws, steps, wantsTerminal) && m <= n < |ws|
    requires !ws[m].parent.writeOpen && ws[m].parent.written == 0
    requires i < |ws[n].kids|
    ensures !WentThrough(ws[n].kids[i]) && !Enabled(ws[n], ReadToken(i))
  {
    WrittenStays(ws, steps, wantsTerminal, m, n);
    RunInv(ws, steps, wantsTerminal, n);
    CountsFit(ws[n].kids);
  }

  /** After the parent has closed its end no child is stuck at the gate: while one is
      undecided, some child can take a step of its own. */
  lemma ClosedGateNeverBlocks(ws: seq<World>, steps: seq<Step>, wantsTerminal: bool, n: nat, i: nat)
    requires Run(ws, steps, wantsTerminal) && n < |ws| && !ws[n].parent.writeOpen
    requires i < |ws[n].kids| && (ws[n].kids[i] == Starting || ws[n].kids[i] == Waiting)
    ensures exists k: nat ::
      Enabled(ws[n], ShutWriteEnd(k)) || Enabled(ws[n], ReadToken(k)) || Enabled(ws[n], ReadEof(k))
  {
    var w := ws[n];
    if k: nat :| k < |w.kids| && w.kids[k] == Starting {
      assert Enabled(w, ShutWriteEnd(k));
    } else {
      assert !HasWriter(w);
      assert Enabled(w, ReadToken(i)) || Enabled(w, ReadEof(i));
    }
  }
}

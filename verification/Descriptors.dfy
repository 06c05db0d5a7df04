/** Descriptor tables of the shell and of the stages it forks (src/executor.c). */
module Descriptors {

  datatype File = Other(id: int) | GateEnd(write: bool) | PipeEnd(stage: nat, write: bool)

  type Table = map<int, File>

  /** No end of a startup gate or of a stage pipe. */
  predicate Plain(t: Table) {
    forall fd :: fd in t ==> t[fd].Other?
  }

  /** `redirect_fd`, when the dup2 succeeds. */
  function Redirect(t: Table, fd: int, target: int): Table
    requires fd in t
  {
    if fd == target then t else t[target := t[fd]] - {fd}
  }

  function WithGate(base: Table, g0: int, g1: int): Table {
    base[g0 := GateEnd(false)][g1 := GateEnd(true)]
  }

  /** The two lowest free descriptors were taken for the gate, so 0 and 1 are in use. */
  predicate GateFds(base: Table, g0: int, g1: int) {
    && g0 !in base && g1 !in base && g0 != g1 && g0 >= 0 && g1 >= 0
    && 0 in WithGate(base, g0, g1) && 1 in WithGate(base, g0, g1)
  }

  /** Stage pipe k was created while the gate table and the read end of pipe k - 1 were open. */
  predicate PipeFds(gated: Table, rs: seq<int>, ws: seq<int>) {
    && |rs| == |ws|
    && (forall k :: 0 <= k < |rs| ==>
          rs[k] >= 0 && ws[k] >= 0 && rs[k] !in gated && ws[k] !in gated && rs[k] != ws[k])
    && (forall k :: 0 < k < |rs| ==> rs[k] != rs[k - 1] && ws[k] != rs[k - 1])
  }

  /** The table with the two pipes a stage sees; -1 stands for no descriptor. */
  function Held(gated: Table, k: nat, pipeFd: int, r: int, w: int): Table {
    var t := if pipeFd >= 0 && k > 0 then gated[pipeFd := PipeEnd(k - 1, false)] else gated;
    if r >= 0 then t[r := PipeEnd(k, false)][w := PipeEnd(k, true)] else t
  }

  /** The descriptor of pipe k, or -1 when there is no such pipe. */
  function FdOf(s: seq<int>, k: int): int {
    if 0 <= k < |s| then s[k] else -1
  }

  /** The table stage k is forked with. */
  function Inherited(gated: Table, rs: seq<int>, ws: seq<int>, k: nat): Table {
    Held(gated, k, FdOf(rs, k - 1), FdOf(rs, k), FdOf(ws, k))
  }

  /** What a stage does to its table before its own redirections: child_prepare_before_gate,
      then its pipes. `own` are the event pipe and the devices it closes; -1 means no pipe. */
  function StageTable(t: Table, g0: int, g1: int, own: set<int>, pipeFd: int, r: int, w: int): Table
    requires pipeFd >= 0 ==> pipeFd in t && pipeFd !in own && pipeFd != g0 && pipeFd != g1
    requires r >= 0 ==> w in t && w !in own && w != g0 && w != g1 && w != pipeFd && w != 0
  {
    var t := t - {g1} - own - {g0};
    var t := if pipeFd >= 0 then Redirect(t, pipeFd, 0) else t;
    if r >= 0 then Redirect(t, w, 1) - {r} else t
  }

  predicate Launchable(base: Table, g0: int, g1: int, own: set<int>, rs: seq<int>, ws: seq<int>) {
    Plain(base) && GateFds(base, g0, g1) && PipeFds(WithGate(base, g0, g1), rs, ws) && own <= base.Keys
  }

  /** Stage k's table once it has wired its pipes; there are |rs| + 1 stages. */
  function Wired(base: Table, g0: int, g1: int, own: set<int>, rs: seq<int>, ws: seq<int>, k: nat): Table
    requires Launchable(base, g0, g1, own, rs, ws) && k <= |rs|
  {
    StageTable(Inherited(WithGate(base, g0, g1), rs, ws, k), g0, g1, own, FdOf(rs, k - 1), FdOf(rs, k), FdOf(ws, k))
  }

  lemma StageEnds(base: Table, g0: int, g1: int, own: set<int>, rs: seq<int>, ws: seq<int>, k: nat, fd: int)
    requires Launchable(base, g0, g1, own, rs, ws) && k <= |rs|
    ensures var t := Wired(base, g0, g1, own, rs, ws, k);
      && (fd in t && !t[fd].Other? <==> (k > 0 && fd == 0) || (k < |rs| && fd == 1))
      && (k > 0 ==> 0 in t && t[0] == PipeEnd(k - 1, false))
      && (k < |rs| ==> 1 in t && t[1] == PipeEnd(k, true))
  {
  }

  /** Among all stages, pipe j's write end is open exactly once, as stdout of stage j, and its
      read end exactly once, as stdin of stage j + 1; the gate is open nowhere. */
  lemma PipelineWiring(base: Table, g0: int, g1: int, own: set<int>, rs: seq<int>, ws: seq<int>, k: nat, fd: int,
                       j: nat, write: bool)
    requires Launchable(base, g0, g1, own, rs, ws) && k <= |rs| && j < |rs|
    ensures var t := Wired(base, g0, g1, own, rs, ws, k);
      && (fd in t && t[fd] == PipeEnd(j, write) <==> if write then k == j && fd == 1 else k == j + 1 && fd == 0)
      && (fd in t ==> !t[fd].GateEnd?)
  {
    StageEnds(base, g0, g1, own, rs, ws, k, fd);
    StageEnds(base, g0, g1, own, rs, ws, k, 0);
    StageEnds(base, g0, g1, own, rs, ws, k, 1);
  }

  /** Everything else is as in the shell, except what the child closes: its own copies of the event
      pipe and the devices. */
  lemma TheRestIsInherited(base: Table, g0: int, g1: int, own: set<int>, rs: seq<int>, ws: seq<int>, k: nat, fd: int)
    requires Launchable(base, g0, g1, own, rs, ws) && k <= |rs|
    requires !(k > 0 && fd == 0) && !(k < |rs| && fd == 1)
    ensures var t := Wired(base, g0, g1, own, rs, ws, k);
      && (fd in t <==> fd in base && fd !in own)
      && (fd in t ==> t[fd] == base[fd])
  {
  }

  /** What keeping the gate open buys: a read end that landed on descriptor 1 would be closed
      right after stdout had been moved there. */
  lemma ReadEndOnStdoutLosesIt(t: Table, w: int)
    requires w in t && w > 1 && 1 in t && t[1] == PipeEnd(0, false) && t[w] == PipeEnd(0, true)
    ensures 1 !in StageTable(t, -1, -1, {}, -1, 1, w)
  {
  }
}

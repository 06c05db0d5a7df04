/** The life of one device: src/device.c, with the hang-up mark of src/uart_protocol.c. */
module DeviceLife {
  import opened Options
  import opened Errno

  datatype DeviceState = Closed | Open | Error | Disabled

  /** Which operations a backend provides. */
  datatype Ops = Ops(open: bool, read: bool, write: bool, control: bool, close: bool)

  /** The fields of `Device` that src/device.c works on; a NULL `ops` is None, errno 0 is None. */
  datatype Dev = Dev(enabled: bool, ops: Option<Ops>, state: DeviceState, isOpen: bool, lastErrno: Option<Errno>)

  /** `device_init`. */
  function Init(enabled: bool, ops: Option<Ops>): Dev {
    Dev(enabled, ops, if enabled then Closed else Disabled, false, None)
  }

  /** What callers can ask. `usable` is a buffer that is neither NULL nor empty. `ReadByte` is
      the read of the UART receive loop, which takes end of file for a hang-up, and `Note` is
      `protocol_result`. */
  datatype Request =
    | ToOpen | ToRead(usable: bool) | ToWrite(usable: bool) | ToControl | ToClose
    | ReadByte | Note(error: Option<Errno>)

  /** What the backend would answer if it were called. */
  datatype Answer = Answer(ret: int, errno: Option<Errno>)

  datatype Op = BOpen | BRead | BWrite | BControl | BClose | BReadByte

  /** A call that reached the backend, with its answer. */
  datatype Call = Call(op: Op, answer: Answer)

  /** The device afterwards, the value returned, and the backend call made, if any. */
  datatype Outcome = Outcome(dev: Dev, ret: int, called: Option<Call>)

  predicate Transient(e: Option<Errno>) {
    e.Some? && e.value in {EAGAIN, EINTR, ETIMEDOUT, EINVAL, ENOTSUP, EPROTO, EMSGSIZE, EBUSY}
  }

  // ---------------------------------------------------------------- what each operation does

  /** `device_result`. */
  function Settled(d: Dev, a: Answer): Dev {
    if a.ret >= 0 then d.(lastErrno := None, state := if d.isOpen then Open else Closed)
    else if Transient(a.errno) then d.(lastErrno := a.errno)
    else d.(lastErrno := a.errno, state := Error)
  }

  function Refused(d: Dev, e: Errno): Outcome {
    Outcome(d.(lastErrno := Some(e)), -1, None)
  }

  /** `device_ready`: why the device cannot be used now. */
  function NotReady(d: Dev): Option<Errno> {
    if d.ops.None? then Some(EINVAL)
    else if !d.enabled then Some(EACCES)
    else if !d.isOpen then Some(EBADF)
    else if d.state == Error then Some(if d.lastErrno.Some? then d.lastErrno.value else EIO)
    else None
  }

  function Opening(d: Dev, a: Answer): Outcome {
    if d.ops.None? || !d.ops.value.open then Refused(d, EINVAL)
    else if !d.enabled then Refused(d, EACCES)
    else if d.isOpen then
      if d.state == Error then Refused(d, EBUSY) else Outcome(d.(lastErrno := None), 0, None)
    else Outcome(Settled(d.(isOpen := a.ret == 0), a), a.ret, Some(Call(BOpen, a)))
  }

  /** Reading, writing and control; `supported` is the presence of the operation. */
  function Using(d: Dev, op: Op, usable: bool, supported: bool, a: Answer): Outcome {
    if NotReady(d).Some? then Refused(d, NotReady(d).value)
    else if !usable then Refused(d, EINVAL)
    else if !supported then Refused(d, ENOTSUP)
    else Outcome(Settled(d, a), a.ret, Some(Call(op, a)))
  }

  function Closing(d: Dev, a: Answer): Outcome {
    if d.ops.None? then Refused(d, EINVAL)
    else if !d.isOpen then Outcome(d.(state := if d.enabled then Closed else Disabled, lastErrno := None), 0, None)
    else if !d.ops.value.close then Refused(d, ENOTSUP)
    else Outcome(Settled(d.(isOpen := a.ret != 0), a), a.ret, Some(Call(BClose, a)))
  }

  /** One byte for the UART receive loop: end of file puts the device in error. */
  function ReadingByte(d: Dev, a: Answer): Outcome {
    var o := Using(d, BReadByte, true, d.ops.Some? && d.ops.value.read, a);
    if o.ret == 0 then Outcome(o.dev.(state := Error, lastErrno := Some(EIO)), -1, o.called) else o
  }

  function Step(d: Dev, rq: Request, a: Answer): Outcome {
    match rq
    case ToOpen => Opening(d, a)
    case ToRead(usable) => Using(d, BRead, usable, d.ops.Some? && d.ops.value.read, a)
    case ToWrite(usable) => Using(d, BWrite, usable, d.ops.Some? && d.ops.value.write, a)
    case ToControl => Using(d, BControl, true, d.ops.Some? && d.ops.value.control, a)
    case ToClose => Closing(d, a)
    case ReadByte => ReadingByte(d, a)
    case Note(e) => Outcome(d.(lastErrno := e), 0, None)
  }

  /** `Device`, with the backend calls made on it so far. */
  class Device {
    const enabled: bool
    const ops: Option<Ops>
    var state: DeviceState
    var isOpen: bool
    var lastErrno: Option<Errno>
    ghost var calls: seq<Call>

    function Value(): Dev
      reads this
    {
      Dev(enabled, ops, state, isOpen, lastErrno)
    }

    constructor (enabled: bool, ops: Option<Ops>)
      ensures Value() == Init(enabled, ops) && calls == []
    {
      this.enabled, this.ops := enabled, ops;
      state, isOpen, lastErrno := if enabled then Closed else Disabled, false, None;
      calls := [];
    }

    ghost predicate Did(callsBefore: seq<Call>, o: Outcome, ret: int)
      reads this
    {
      Value() == o.dev && ret == o.ret && calls == callsBefore + if o.called.Some? then [o.called.value] else []
    }

    method Failure(e: Errno) returns (ret: int)
      modifies this
      ensures Value() == old(Value()).(lastErrno := Some(e)) && calls == old(calls) && ret == -1
    {
      lastErrno := Some(e);
      ret := -1;
    }

    method Result(a: Answer)
      modifies this
      ensures Value() == Settled(old(Value()), a) && calls == old(calls)
    {
      if a.ret >= 0 {
        lastErrno := None;
        state := if isOpen then DeviceState.Open else Closed;
        return;
      }
      lastErrno := a.errno;
      if !Transient(a.errno) {
        state := Error;
      }
    }

    method Ready() returns (ready: bool)
      modifies this
      ensures ready == NotReady(old(Value())).None? && calls == old(calls)
      ensures Value() == if ready then old(Value()) else Refused(old(Value()), NotReady(old(Value())).value).dev
    {
      ready := false;
      if ops.None? {
        var _ := Failure(EINVAL);
      } else if !enabled {
        var _ := Failure(EACCES);
      } else if !isOpen {
        var _ := Failure(EBADF);
      } else if state == Error {
        var _ := Failure(if lastErrno.Some? then lastErrno.value else EIO);
      } else {
        ready := true;
      }
    }

    method Open(a: Answer) returns (ret: int)
      modifies this
      ensures Did(old(calls), Step(old(Value()), ToOpen, a), ret)
    {
      if ops.None? || !ops.value.open {
        ret := Failure(EINVAL);
      } else if !enabled {
        ret := Failure(EACCES);
      } else if isOpen {
        if state == Error {
          ret := Failure(EBUSY);
        } else {
          lastErrno, ret := None, 0;
        }
      } else {
        calls, ret := calls + [Call(BOpen, a)], a.ret;
        if ret == 0 {
          isOpen := true;
        }
        Result(a);
      }
    }

    method Read(usable: bool, a: Answer) returns (ret: int)
      modifies this
      ensures Did(old(calls), Step(old(Value()), ToRead(usable), a), ret)
    {
      var ready := Ready();
      if !ready {
        ret := -1;
      } else if !usable {
        ret := Failure(EINVAL);
      } else if !ops.value.read {
        ret := Failure(ENOTSUP);
      } else {
        calls, ret := calls + [Call(BRead, a)], a.ret;
        Result(a);
      }
    }

    method Write(usable: bool, a: Answer) returns (ret: int)
      modifies this
      ensures Did(old(calls), Step(old(Value()), ToWrite(usable), a), ret)
    {
      var ready := Ready();
      if !ready {
        ret := -1;
      } else if !usable {
        ret := Failure(EINVAL);
      } else if !ops.value.write {
        ret := Failure(ENOTSUP);
      } else {
        calls, ret := calls + [Call(BWrite, a)], a.ret;
        Result(a);
      }
    }

    method Control(a: Answer) returns (ret: int)
      modifies this
      ensures Did(old(calls), Step(old(Value()), ToControl, a), ret)
    {
      var ready := Ready();
      if !ready {
        ret := -1;
      } else if !ops.value.control {
        ret := Failure(ENOTSUP);
      } else {
        calls, ret := calls + [Call(BControl, a)], a.ret;
        Result(a);
      }
    }

    method Close(a: Answer) returns (ret: int)
      modifies this
      ensures Did(old(calls), Step(old(Value()), ToClose, a), ret)
    {
      if ops.None? {
        ret := Failure(EINVAL);
      } else if !isOpen {
        state, lastErrno, ret := if enabled then Closed else Disabled, None, 0;
      } else if !ops.value.close {
        ret := Failure(ENOTSUP);
      } else {
        calls, ret := calls + [Call(BClose, a)], a.ret;
        if ret == 0 {
          isOpen := false;
        }
        Result(a);
      }
    }

    /** A close by the backend's own destroy hook: no test, no change of state, result ignored. */
    ghost method HookCloses(a: Answer)
      modifies this`calls
      ensures calls == old(calls) + if ops.Some? && ops.value.close then [Call(BClose, a)] else []
    {
      if ops.Some? && ops.value.close {
        calls := calls + [Call(BClose, a)];
      }
    }

    /** The read of the UART receive loop: end of file is a hang-up. */
    method ReadOneByte(a: Answer) returns (ret: int)
      modifies this
      ensures Did(old(calls), Step(old(Value()), ReadByte, a), ret)
    {
      var ready := Ready();
      if !ready {
        ret := -1;
      } else if !ops.value.read {
        ret := Failure(ENOTSUP);
      } else {
        calls, ret := calls + [Call(BReadByte, a)], a.ret;
        Result(a);
        if ret == 0 {
          state := Error;
          ret := Failure(EIO);
        }
      }
    }

    method Perform(rq: Request, a: Answer) returns (ret: int)
      modifies this
      ensures Did(old(calls), Step(old(Value()), rq, a), ret)
    {
      hide Step;
      match rq
      case ToOpen => ret := Open(a);
      case ToRead(usable) => ret := Read(usable, a);
      case ToWrite(usable) => ret := Write(usable, a);
      case ToControl => ret := Control(a);
      case ToClose => ret := Close(a);
      case ReadByte => ret := ReadOneByte(a);
      case Note(e) => ret := NoteError(e);
    }

    method NoteError(e: Option<Errno>) returns (ret: int)
      modifies this
      ensures forall a :: Did(old(calls), Step(old(Value()), Note(e), a), ret)
    {
      lastErrno, ret := e, 0;
    }
  }

  // ---------------------------------------------------------------- whole traces

  datatype Event = Event(request: Request, answer: Answer)

  /** A device and everything its backend was asked. */
  datatype History = History(dev: Dev, calls: seq<Call>)

  function After(h: History, e: Event): History {
    var o := Step(h.dev, e.request, e.answer);
    History(o.dev, h.calls + if o.called.Some? then [o.called.value] else [])
  }

  function Run(h: History, events: seq<Event>): History
    decreases |events|
  {
    if events == [] then h else After(Run(h, events[..|events| - 1]), events[|events| - 1])
  }

  function Start(enabled: bool, ops: Option<Ops>): History {
    History(Init(enabled, ops), [])
  }

  /** What the device's flags may say. */
  predicate Valid(d: Dev) {
    && (d.isOpen ==> d.enabled && d.ops.Some? && d.state in {Open, Error})
    && (!d.isOpen ==> d.state in {Closed, Error, Disabled})
    && (!d.enabled ==> d.state == Disabled)
    && (d.state == Disabled ==> !d.enabled)
  }

  lemma StepKeepsValid(d: Dev, rq: Request, a: Answer)
    requires Valid(d)
    ensures Valid(Step(d, rq, a).dev) && Step(d, rq, a).dev.enabled == d.enabled && Step(d, rq, a).dev.ops == d.ops
    ensures !d.enabled ==> Step(d, rq, a).called == None
  {
    hide Transient;
  }

  /** Over any call sequence and any backend answers: opened implies open or in error, and the
      backend of a disabled device is never called. */
  lemma {:induction false} RunKeepsValid(enabled: bool, ops: Option<Ops>, events: seq<Event>)
    ensures var h := Run(Start(enabled, ops), events);
      && Valid(h.dev) && h.dev.enabled == enabled && h.dev.ops == ops
      && (!enabled ==> h.calls == [] && !h.dev.isOpen)
    decreases |events|
  {
    if events != [] {
      var before, last := Run(Start(enabled, ops), events[..|events| - 1]), events[|events| - 1];
      RunKeepsValid(enabled, ops, events[..|events| - 1]);
      StepKeepsValid(before.dev, last.request, last.answer);
      hide Step, Valid;
    }
  }

  // ---------------------------------------------------------------- the order of backend calls

  /** Where a backend is according to the calls it has seen: shut, in use, or failed for good.
      Wrong is the verdict on a call it should not have seen. */
  datatype View = Shut | InUse | Failed | Wrong

  predicate Fatal(c: Call) {
    (c.answer.ret < 0 && !Transient(c.answer.errno)) || (c.op == BReadByte && c.answer.ret == 0)
  }

  /** The protocol promised to a backend. Shut: only open. In use: anything but open, until a
      successful close or a fatal answer. Failed: only close, until it succeeds. */
  function Seen(v: View, c: Call): View {
    match v
    case Wrong => Wrong
    case Shut => if c.op != BOpen then Wrong else if c.answer.ret == 0 then InUse else Shut
    case InUse =>
      if c.op == BOpen then Wrong
      else if c.op == BClose && c.answer.ret == 0 then Shut
      else if Fatal(c) then Failed
      else InUse
    case Failed =>
      if c.op != BClose then Wrong else if c.answer.ret == 0 then Shut else Failed
  }

  function SeenAll(calls: seq<Call>): View {
    if calls == [] then Shut else Seen(SeenAll(calls[..|calls| - 1]), calls[|calls| - 1])
  }

  /** What the device itself takes the backend for. */
  function ViewOf(d: Dev): View {
    if !d.isOpen then Shut else if d.state == Error then Failed else InUse
  }

  /** The one answer that deceives the device: a close in error that returns a positive value. */
  predicate Deceives(d: Dev, e: Event) {
    && d.isOpen && d.state == Error && d.ops.Some? && d.ops.value.close
    && e.request == ToClose && e.answer.ret > 0
  }

  function SeenMaybe(v: View, c: Option<Call>): View {
    if c.Some? then Seen(v, c.value) else v
  }

  /** One step keeps the device's view and the backend's the same exactly when it is not deceived. */
  lemma StepAgrees(d: Dev, e: Event)
    requires Valid(d)
    ensures var o := Step(d, e.request, e.answer);
      SeenMaybe(ViewOf(d), o.called) == ViewOf(o.dev) <==> !Deceives(d, e)
  {
    hide Transient;
  }

  lemma SeenAppend(calls: seq<Call>, c: Option<Call>)
    ensures SeenAll(calls + if c.Some? then [c.value] else []) == SeenMaybe(SeenAll(calls), c)
  {
    hide Seen;
    if c.Some? {
      var longer := calls + [c.value];
      assert longer[..|longer| - 1] == calls;
    } else {
      assert calls + [] == calls;
    }
  }

  ghost predicate Agrees(h: History) {
    SeenAll(h.calls) == ViewOf(h.dev)
  }

  ghost predicate AgreesThroughout(h: History, events: seq<Event>) {
    forall n :: 0 <= n <= |events| ==> Agrees(Run(h, events[..n]))
  }

  ghost predicate NeverDeceived(h: History, events: seq<Event>) {
    forall n :: 0 <= n < |events| ==> !Deceives(Run(h, events[..n]).dev, events[n])
  }

  lemma RunOneMore(h: History, events: seq<Event>, n: nat)
    requires n < |events|
    ensures Run(h, events[..n + 1]) == After(Run(h, events[..n]), events[n])
  {
    hide After;
    assert events[..n + 1][..n] == events[..n];
  }

  lemma AfterAgrees(h: History, e: Event)
    requires Valid(h.dev) && Agrees(h)
    ensures Agrees(After(h, e)) <==> !Deceives(h.dev, e)
  {
    hide Step, SeenMaybe, Deceives, Valid, SeenAll;
    StepAgrees(h.dev, e);
    SeenAppend(h.calls, Step(h.dev, e.request, e.answer).called);
  }

  /** The device's flags and the backend's view agree throughout if and only if no close of a
      device in error returned a positive value. */
  lemma AgreesIffNeverDeceived(enabled: bool, ops: Option<Ops>, events: seq<Event>)
    ensures AgreesThroughout(Start(enabled, ops), events) <==> NeverDeceived(Start(enabled, ops), events)
  {
    hide Agrees, Deceives, Valid, After, Run;
    var h := Start(enabled, ops);
    if AgreesThroughout(h, events) {
      forall n | 0 <= n < |events| ensures !Deceives(Run(h, events[..n]).dev, events[n]) {
        RunKeepsValid(enabled, ops, events[..n]);
        AfterAgrees(Run(h, events[..n]), events[n]);
        RunOneMore(h, events, n);
        assert Agrees(Run(h, events[..n + 1]));
      }
    }
    if NeverDeceived(h, events) {
      forall n | 0 <= n <= |events| ensures Agrees(Run(h, events[..n])) {
        AgreesUpTo(enabled, ops, events, n);
      }
    }
  }

  lemma {:induction false} AgreesUpTo(enabled: bool, ops: Option<Ops>, events: seq<Event>, n: nat)
    requires n <= |events| && NeverDeceived(Start(enabled, ops), events)
    ensures Agrees(Run(Start(enabled, ops), events[..n]))
    decreases n
  {
    var h := Start(enabled, ops);
    if n == 0 {
      assert events[..0] == [];
    } else {
      hide Agrees, Deceives, Valid, After, Run;
      AgreesUpTo(enabled, ops, events, n - 1);
      RunKeepsValid(enabled, ops, events[..n - 1]);
      AfterAgrees(Run(h, events[..n - 1]), events[n - 1]);
      RunOneMore(h, events, n - 1);
    }
  }

  /** The request gets past every test of an open device and reaches the backend. */
  predicate Reaches(ops: Option<Ops>, rq: Request) {
    ops.Some? &&
    match rq
    case ToRead(usable) => usable && ops.value.read
    case ToWrite(usable) => usable && ops.value.write
    case ToControl => ops.value.control
    case ReadByte => ops.value.read
    case _ => false
  }

  /** A close that ends the deception: it succeeds, or fails for good. */
  predicate Clears(e: Event) {
    e.request == ToClose && (e.answer.ret == 0 || (e.answer.ret < 0 && !Transient(e.answer.errno)))
  }

  /** Before event m some close in error returned a positive value, and no later close cleared that. */
  ghost predicate Lured(h: History, events: seq<Event>, m: nat)
    requires m <= |events|
  {
    exists n :: 0 <= n < m &&
      Deceives(Run(h, events[..n]).dev, events[n]) && forall k :: n < k < m ==> !Clears(events[k])
  }

  lemma LuredNext(h: History, events: seq<Event>, m: nat)
    requires m < |events|
    ensures Lured(h, events, m + 1) <==>
      Deceives(Run(h, events[..m]).dev, events[m]) || (Lured(h, events, m) && !Clears(events[m]))
  {
    hide Deceives, Clears, Run;
  }

  /** How a device that may be lured stands to a backend that has not seen a wrong call. */
  predicate Stands(d: Dev, v: View, lured: bool) {
    if lured then v == Failed && ViewOf(d) == InUse && d.ops.Some? && d.ops.value.close else v == ViewOf(d)
  }

  lemma LureStep(d: Dev, v: View, lured: bool, e: Event)
    requires Valid(d) && Stands(d, v, lured)
    ensures var o := Step(d, e.request, e.answer); var v' := SeenMaybe(v, o.called);
      && (v' == Wrong <==> lured && Reaches(d.ops, e.request))
      && (v' != Wrong ==> Stands(o.dev, v', Deceives(d, e) || (lured && !Clears(e))))
  {
    hide Transient;
  }

  ghost predicate StandsAt(h: History, events: seq<Event>, m: nat)
    requires m <= |events|
  {
    var at := Run(h, events[..m]);
    at.dev.ops == h.dev.ops && Stands(at.dev, SeenAll(at.calls), Lured(h, events, m))
  }

  lemma StandsNext(enabled: bool, ops: Option<Ops>, events: seq<Event>, m: nat)
    requires m < |events| && StandsAt(Start(enabled, ops), events, m)
    ensures var h := Start(enabled, ops); var wrong := SeenAll(Run(h, events[..m + 1]).calls) == Wrong;
      && (wrong <==> Lured(h, events, m) && Reaches(ops, events[m].request))
      && (!wrong ==> StandsAt(h, events, m + 1))
  {
    var h, e := Start(enabled, ops), events[m];
    var at := Run(h, events[..m]);
    RunKeepsValid(enabled, ops, events[..m]);
    RunKeepsValid(enabled, ops, events[..m + 1]);
    RunOneMore(h, events, m);
    LuredNext(h, events, m);
    LureStep(at.dev, SeenAll(at.calls), Lured(h, events, m), e);
    hide Step, Valid, Lured, Deceives, Clears, Reaches, Stands, Run, SeenAll, SeenMaybe;
    SeenAppend(at.calls, Step(at.dev, e.request, e.answer).called);
  }

  /** No event before m reaches the backend while the device is lured. */
  ghost predicate NoLuredUse(h: History, events: seq<Event>, m: nat)
    requires m <= |events|
  {
    forall k :: 0 <= k < m && Reaches(h.dev.ops, events[k].request) ==> !Lured(h, events, k)
  }

  lemma NoLuredUseNext(h: History, events: seq<Event>, m: nat)
    requires m < |events|
    ensures NoLuredUse(h, events, m + 1) <==>
      NoLuredUse(h, events, m) && (Reaches(h.dev.ops, events[m].request) ==> !Lured(h, events, m))
  {
    hide Lured, Reaches;
  }

  lemma StandsAtStart(enabled: bool, ops: Option<Ops>, events: seq<Event>)
    ensures StandsAt(Start(enabled, ops), events, 0)
    ensures Run(Start(enabled, ops), events[..0]).calls == []
  {
    assert events[..0] == [];
  }

  lemma {:induction false} LuredUseIsWrong(enabled: bool, ops: Option<Ops>, events: seq<Event>, m: nat)
    requires m <= |events|
    ensures var h := Start(enabled, ops);
      && (SeenAll(Run(h, events[..m]).calls) == Wrong <==> !NoLuredUse(h, events, m))
      && (NoLuredUse(h, events, m) ==> StandsAt(h, events, m))
    decreases m
  {
    var h := Start(enabled, ops);
    if m == 0 {
      hide Run, StandsAt;
      StandsAtStart(enabled, ops, events);
    } else {
      hide Run, SeenAll, Lured, Reaches, NoLuredUse, StandsAt;
      LuredUseIsWrong(enabled, ops, events, m - 1);
      NoLuredUseNext(h, events, m - 1);
      if NoLuredUse(h, events, m - 1) {
        StandsNext(enabled, ops, events, m - 1);
      } else {
        WrongStays(h, events, m - 1);
      }
    }
  }

  lemma WrongStays(h: History, events: seq<Event>, m: nat)
    requires m < |events| && SeenAll(Run(h, events[..m]).calls) == Wrong
    ensures SeenAll(Run(h, events[..m + 1]).calls) == Wrong
  {
    RunOneMore(h, events, m);
    hide Run, SeenAll, Step;
    var at := Run(h, events[..m]);
    SeenAppend(at.calls, Step(at.dev, events[m].request, events[m].answer).called);
  }

  /** Exactly when the backend protocol is kept. Over every call sequence and all backend
      answers the backend sees opens and closes alternate, other calls only between them, and
      after a fatal answer nothing but closes until one succeeds, if and only if no usable,
      supported read, write or control is issued between a close in error that returned a
      positive value and the next close that succeeds or fails for good. */
  lemma ProtocolKeptExactly(enabled: bool, ops: Option<Ops>, events: seq<Event>)
    ensures var h := Start(enabled, ops);
      (forall n :: 0 <= n <= |events| ==> SeenAll(Run(h, events[..n]).calls) != Wrong) <==>
      (forall m :: 0 <= m < |events| && Reaches(ops, events[m].request) ==> !Lured(h, events, m))
  {
    hide Run, SeenAll, Lured, Reaches;
    var h := Start(enabled, ops);
    LuredUseIsWrong(enabled, ops, events, |events|);
    if NoLuredUse(h, events, |events|) {
      forall n | 0 <= n <= |events| ensures SeenAll(Run(h, events[..n]).calls) != Wrong {
        assert NoLuredUse(h, events, n);
        LuredUseIsWrong(enabled, ops, events, n);
      }
    }
  }

  /** With a backend whose close answers 0 or less, as every backend of src/device_backend.c
      does, the backend never sees a wrong call. */
  lemma NoWrongCall(enabled: bool, ops: Option<Ops>, events: seq<Event>)
    requires forall n :: 0 <= n < |events| ==> events[n].request == ToClose ==> events[n].answer.ret <= 0
    ensures SeenAll(Run(Start(enabled, ops), events).calls) == ViewOf(Run(Start(enabled, ops), events).dev) != Wrong
  {
    hide Run, SeenAll;
    var h := Start(enabled, ops);
    assert NeverDeceived(h, events) by {
      forall n | 0 <= n < |events| ensures !Deceives(Run(h, events[..n]).dev, events[n]) {
        assert events[n].request == ToClose ==> events[n].answer.ret <= 0;
      }
    }
    AgreesUpTo(enabled, ops, events, |events|);
    assert events[..|events|] == events;
  }

  // The deception at work.

  const ALL_OPS := Some(Ops(true, true, true, true, true))
  const OPENS := Event(ToOpen, Answer(0, None))
  const READ_FAILS := Event(ToRead(true), Answer(-1, Some(EIO)))
  const CLOSE_FOOLS := Event(ToClose, Answer(1, None))
  const READS := Event(ToRead(true), Answer(1, None))

  function CallOf(op: Op, e: Event): Call {
    Call(op, e.answer)
  }

  const FOOLED_CALLS :=
    [CallOf(BOpen, OPENS), CallOf(BRead, READ_FAILS), CallOf(BClose, CLOSE_FOOLS), CallOf(BRead, READS)]

  function Usable(state: DeviceState, lastErrno: Option<Errno>): Dev {
    Dev(true, ALL_OPS, state, true, lastErrno)
  }

  lemma RunAppend(h: History, events: seq<Event>, e: Event)
    ensures Run(h, events + [e]) == After(Run(h, events), e)
  {
    hide After;
    assert (events + [e])[..|events|] == events;
  }

  lemma FooledSteps(calls: seq<Call>)
    ensures After(History(Init(true, ALL_OPS), calls), OPENS) == History(Usable(Open, None), calls + [FOOLED_CALLS[0]])
    ensures After(History(Usable(Open, None), calls), READ_FAILS) ==
      History(Usable(Error, Some(EIO)), calls + [FOOLED_CALLS[1]])
    ensures After(History(Usable(Error, Some(EIO)), calls), CLOSE_FOOLS) ==
      History(Usable(Open, None), calls + [FOOLED_CALLS[2]])
    ensures After(History(Usable(Open, None), calls), READS) == History(Usable(Open, None), calls + [FOOLED_CALLS[3]])
  {
  }

  lemma FooledRun()
    ensures Run(Start(true, ALL_OPS), [OPENS, READ_FAILS, CLOSE_FOOLS, READS]) ==
      History(Usable(Open, None), FOOLED_CALLS)
  {
    hide Run, After, Usable, Init;
    var h, c := Start(true, ALL_OPS), FOOLED_CALLS;
    NothingRun(h);
    assert [] + [OPENS] == [OPENS] && [OPENS] + [READ_FAILS] == [OPENS, READ_FAILS];
    assert [OPENS, READ_FAILS] + [CLOSE_FOOLS] == [OPENS, READ_FAILS, CLOSE_FOOLS];
    assert [OPENS, READ_FAILS, CLOSE_FOOLS] + [READS] == [OPENS, READ_FAILS, CLOSE_FOOLS, READS];
    RunAppend(h, [], OPENS);
    RunAppend(h, [OPENS], READ_FAILS);
    RunAppend(h, [OPENS, READ_FAILS], CLOSE_FOOLS);
    RunAppend(h, [OPENS, READ_FAILS, CLOSE_FOOLS], READS);
    FooledSteps([]);
    FooledSteps([c[0]]);
    FooledSteps([c[0], c[1]]);
    FooledSteps([c[0], c[1], c[2]]);
    CallsAppend(c);
  }

  lemma CallsAppend(c: seq<Call>)
    requires |c| == 4
    ensures [] + [c[0]] == [c[0]] && [c[0]] + [c[1]] == [c[0], c[1]] && [c[0], c[1]] + [c[2]] == [c[0], c[1], c[2]]
    ensures [c[0], c[1], c[2]] + [c[3]] == c
  {
  }

  lemma NothingRun(h: History)
    ensures Run(h, []) == h
  {
  }

  lemma FooledView()
    ensures SeenAll(FOOLED_CALLS) == Wrong
  {
    hide SeenAll;
    var c := FOOLED_CALLS;
    NothingSeen();
    CallsAppend(c);
    SeenAppend([], Some(c[0]));
    SeenAppend([c[0]], Some(c[1]));
    SeenAppend([c[0], c[1]], Some(c[2]));
    SeenAppend([c[0], c[1], c[2]], Some(c[3]));
  }

  lemma NothingSeen()
    ensures SeenAll([]) == Shut
  {
  }

  /** The deception: after a fatal read, a close that returns 1 puts the device back in use,
      and the next read reaches the failed backend. */
  lemma PositiveCloseDeceives()
    ensures var h := Run(Start(true, ALL_OPS), [OPENS, READ_FAILS, CLOSE_FOOLS, READS]);
      SeenAll(h.calls) == Wrong && |h.calls| == 4 && ViewOf(h.dev) == InUse
  {
    FooledRun();
    FooledView();
    hide Run, SeenAll;
  }

  /** A failed open is no quarantine: the device is in error but the backend still shut, and an
      open that succeeds then puts it in use. */
  lemma FailedOpenMayBeRepeated(ops: Option<Ops>, failed: Answer, succeeds: Answer)
    requires ops.Some? && ops.value.open && failed.ret < 0 && !Transient(failed.errno) && succeeds.ret == 0
    ensures var first := Step(Init(true, ops), ToOpen, failed); var second := Step(first.dev, ToOpen, succeeds);
      && first.dev.state == Error && ViewOf(first.dev) == SeenMaybe(Shut, first.called) == Shut
      && second.dev.state == Open && ViewOf(second.dev) == SeenMaybe(Shut, second.called) == InUse
  {
  }

  // ---------------------------------------------------------------- what a caller gets

  /** The backend operation a request is for. */
  function OpFor(rq: Request): Option<Op> {
    match rq
    case ToOpen => Some(BOpen)
    case ToRead(_) => Some(BRead)
    case ToWrite(_) => Some(BWrite)
    case ToControl => Some(BControl)
    case ToClose => Some(BClose)
    case ReadByte => Some(BReadByte)
    case Note(_) => None
  }

  /** A request reaches the backend as its own operation, and the caller gets the backend's answer,
      except that the end of file is an error to the UART loop. A request that does not reach it is
      refused with -1, or needs nothing: opening what is open, closing what is closed. */
  lemma CallMatchesRequest(d: Dev, rq: Request, a: Answer)
    ensures var o := Step(d, rq, a);
      && (o.called.Some? ==>
            && OpFor(rq) == Some(o.called.value.op) && o.called.value.answer == a
            && o.ret == (if rq == ReadByte && a.ret == 0 then -1 else a.ret))
      && (o.called.None? ==>
            if (rq == ToOpen && d.isOpen && d.state != Error && d.enabled && d.ops.Some? && d.ops.value.open)
               || (rq == ToClose && !d.isOpen && d.ops.Some?) || rq.Note?
            then o.ret == 0 else o.ret == -1)
  {
    hide Transient, Settled;
  }

  /** A read, write or control reaches the backend exactly if the device is enabled, open and not in
      error, the buffer is usable and the backend provides the operation. */
  lemma ReachesExactly(d: Dev, rq: Request, a: Answer)
    requires rq.ToRead? || rq.ToWrite? || rq.ToControl? || rq.ReadByte?
    ensures Step(d, rq, a).called.Some? <==> d.enabled && d.isOpen && d.state != Error && Reaches(d.ops, rq)
  {
    hide Transient, Settled;
  }

  /** Why it does not, first reason first. */
  lemma RefusedBecause(d: Dev, rq: Request, a: Answer)
    requires rq.ToRead? || rq.ToWrite? || rq.ToControl?
    requires Step(d, rq, a).called.None?
    ensures var e, o := Step(d, rq, a).dev.lastErrno, Step(d, rq, a);
      && o.dev.state == d.state && o.dev.isOpen == d.isOpen
      && (d.ops.None? ==> e == Some(EINVAL))
      && (d.ops.Some? && !d.enabled ==> e == Some(EACCES))
      && (d.ops.Some? && d.enabled && !d.isOpen ==> e == Some(EBADF))
      && (d.ops.Some? && d.enabled && d.isOpen && d.state == Error ==>
            e == if d.lastErrno.Some? then d.lastErrno else Some(EIO))
      && (d.ops.Some? && d.enabled && d.isOpen && d.state != Error ==>
            e == if rq == ToRead(false) || rq == ToWrite(false) then Some(EINVAL) else Some(ENOTSUP))
  {
    hide Transient, Settled;
  }

  /** Why an open does not reach the backend, and a close. */
  lemma OpenRefusedBecause(d: Dev, a: Answer)
    ensures var o := Step(d, ToOpen, a);
      && (o.called.Some? <==> d.ops.Some? && d.ops.value.open && d.enabled && !d.isOpen)
      && (o.ret == -1 && o.called.None? ==>
            && o.dev == d.(lastErrno := o.dev.lastErrno)
            && o.dev.lastErrno ==
                 Some(if d.ops.None? || !d.ops.value.open then EINVAL else if !d.enabled then EACCES else EBUSY))
      && (o.called.Some? ==> (o.dev.isOpen <==> a.ret == 0))
  {
    hide Transient;
  }

  lemma CloseRefusedBecause(d: Dev, a: Answer)
    ensures var o := Step(d, ToClose, a);
      && (o.called.Some? <==> d.ops.Some? && d.isOpen && d.ops.value.close)
      && (o.ret == -1 && o.called.None? ==>
            o.dev == d.(lastErrno := Some(if d.ops.None? then EINVAL else ENOTSUP)))
      && (o.called.Some? ==> (o.dev.isOpen <==> a.ret != 0))
      && (d.ops.Some? && !d.isOpen ==> o.dev == d.(state := if d.enabled then Closed else Disabled, lastErrno := None))
  {
    hide Transient;
  }

  /** Which failures quarantine a device: all but eight. */
  lemma QuarantineExactly(d: Dev, rq: Request, a: Answer)
    requires Valid(d) && ViewOf(d) == InUse && Step(d, rq, a).called.Some? && a.ret < 0
    ensures ViewOf(Step(d, rq, a).dev) == InUse <==>
      || a.errno == Some(EAGAIN) || a.errno == Some(EINTR) || a.errno == Some(ETIMEDOUT) || a.errno == Some(EINVAL)
      || a.errno == Some(ENOTSUP) || a.errno == Some(EPROTO) || a.errno == Some(EMSGSIZE) || a.errno == Some(EBUSY)
    ensures Step(d, rq, a).dev.lastErrno == a.errno
  {
  }

  /** What an answer leaves behind: a success clears the error and the device is open or closed as it
      says; a passing failure leaves the state alone; any other puts the device in error. */
  lemma AnswerSettles(d: Dev, rq: Request, a: Answer)
    requires Step(d, rq, a).called.Some?
    ensures var after := Step(d, rq, a).dev;
      var passing := a.errno.Some? &&
        a.errno.value in {EAGAIN, EINTR, ETIMEDOUT, EINVAL, ENOTSUP, EPROTO, EMSGSIZE, EBUSY};
      && after.enabled == d.enabled && after.ops == d.ops
      && (a.ret > 0 || (a.ret == 0 && rq != ReadByte) ==>
            after.lastErrno == None && after.state == if after.isOpen then Open else Closed)
      && (a.ret == 0 && rq == ReadByte ==> after.lastErrno == Some(EIO) && after.state == Error)
      && (a.ret < 0 ==> after.lastErrno == a.errno && after.state == if passing then d.state else Error)
      && (rq != ToOpen && rq != ToClose ==> after.isOpen == d.isOpen)
  {
  }

  // ---------------------------------------------------------------- what holds of every backend

  /** The coarser promise, without the quarantine. */
  datatype Coarse = Apart | Between | Broken

  function CoarseSeen(v: Coarse, c: Call): Coarse {
    match v
    case Broken => Broken
    case Apart => if c.op != BOpen then Broken else if c.answer.ret == 0 then Between else Apart
    case Between => if c.op == BOpen then Broken else if c.op == BClose && c.answer.ret == 0 then Apart else Between
  }

  function CoarseAll(calls: seq<Call>): Coarse {
    if calls == [] then Apart else CoarseSeen(CoarseAll(calls[..|calls| - 1]), calls[|calls| - 1])
  }

  lemma StepAlternates(d: Dev, rq: Request, a: Answer)
    requires Valid(d)
    ensures var o := Step(d, rq, a); var v := if d.isOpen then Between else Apart;
      (if o.called.Some? then CoarseSeen(v, o.called.value) else v) == if o.dev.isOpen then Between else Apart
  {
    hide Transient;
  }

  /** Whatever the answers, successful opens and closes alternate and every other call falls
      between them. */
  lemma {:induction false} OpensAndClosesAlternate(enabled: bool, ops: Option<Ops>, events: seq<Event>)
    ensures var h := Run(Start(enabled, ops), events); CoarseAll(h.calls) == if h.dev.isOpen then Between else Apart
    decreases |events|
  {
    if events != [] {
      var init, last := events[..|events| - 1], events[|events| - 1];
      var before := Run(Start(enabled, ops), init);
      OpensAndClosesAlternate(enabled, ops, init);
      RunKeepsValid(enabled, ops, init);
      StepAlternates(before.dev, last.request, last.answer);
      hide Step, Valid, CoarseSeen;
      var called := Step(before.dev, last.request, last.answer).called;
      if called.Some? {
        assert (before.calls + [called.value])[..|before.calls|] == before.calls;
      } else {
        assert before.calls + [] == before.calls;
      }
    }
  }
}

/** The device table and its reload: src/device_manager.c, with the ownership of backend
    contexts from src/device_backend.c. */
module DeviceManager {
  import opened Options
  import opened Errno
  import opened DeviceConfig
  import DeviceConfigLoad
  import DeviceConfigPrint
  import DeviceLife

  /** The allocator of backend contexts. An id is given out once; `freed` lists the ids in the
      order they were released. */
  class Heap {
    var live: set<nat>
    var next: nat
    ghost var freed: seq<nat>

    ghost predicate Valid()
      reads this
    {
      && (forall i, k :: 0 <= i < k < |freed| ==> freed[i] != freed[k])
      && (forall p :: p in live ==> p < next && p !in freed)
      && (forall p :: p in freed ==> p < next)
      && (forall p :: 0 <= p < next ==> p in live || p in freed)
    }

    constructor ()
      ensures Valid() && live == {} && next == 0
    {
      live, next, freed := {}, 0, [];
    }

    method Calloc(fails: bool) returns (p: Option<nat>)
      requires Valid()
      modifies this
      ensures Valid()
      ensures fails ==> p == None && live == old(live) && next == old(next)
      ensures !fails ==> p == Some(old(next)) && live == old(live) + {old(next)} && next == old(next) + 1
      ensures freed == old(freed)
    {
      if fails {
        return None;
      }
      p := Some(next);
      live, next := live + {next}, next + 1;
    }

    /** A context can be released only while it is live: never twice. */
    method Free(p: nat)
      requires Valid() && p in live
      modifies this
      ensures Valid() && live == old(live) - {p} && next == old(next) && freed == old(freed) + [p]
    {
      live, freed := live - {p}, freed + [p];
    }
  }

  /** A context is on the heap, or belongs to whoever registered the device. */
  datatype Context = Owned(id: nat) | Foreign

  /** An element of `DeviceManager.devices`. */
  datatype Entry = Entry(config: Config, context: Context, device: DeviceLife.Device)

  /** The tables of operations of src/device_backend.c. */
  function OpsOf(kind: Kind): DeviceLife.Ops {
    match kind
    case Uart => DeviceLife.Ops(true, true, true, true, true)
    case I2c => DeviceLife.Ops(true, true, true, false, true)
    case Oled => DeviceLife.Ops(true, false, false, true, true)
    case Gpio => DeviceLife.Ops(true, true, true, false, true)
    case Led => DeviceLife.Ops(true, true, true, true, true)
  }

  /** Every backend opens and closes; only the display cannot be read or written, and only UART,
      display and LED take controls. */
  lemma OpsExactly(kind: Kind)
    ensures OpsOf(kind).open && OpsOf(kind).close
    ensures OpsOf(kind).read == OpsOf(kind).write == (kind != Oled)
    ensures OpsOf(kind).control == (kind != I2c && kind != Gpio)
  {
  }

  ghost function Held(es: seq<Entry>): set<nat> {
    set e | e in es && e.context.Owned? :: e.context.id
  }

  ghost function Objects(es: seq<Entry>): set<DeviceLife.Device> {
    set e | e in es :: e.device
  }

  /** Unique names, no device stored twice, no context shared. */
  ghost predicate Separate(es: seq<Entry>) {
    forall i, k :: 0 <= i < k < |es| ==>
      && es[i].config.name != es[k].config.name
      && es[i].device != es[k].device
      && (es[i].context.Owned? ==> es[i].context != es[k].context)
  }

  ghost predicate Table(es: seq<Entry>) {
    && |es| <= MAX_COUNT
    && Separate(es)
    && forall i :: 0 <= i < |es| ==> ConfigValid(es[i].config) && es[i].device.enabled == (es[i].config.enabled != 0)
  }

  ghost predicate Settled(es: seq<Entry>)
    reads Objects(es)
  {
    forall i :: 0 <= i < |es| ==> DeviceLife.Valid(es[i].device.Value())
  }

  ghost function Values(es: seq<Entry>): (vs: seq<DeviceLife.Dev>)
    reads Objects(es)
    ensures |vs| == |es| && forall i :: 0 <= i < |es| ==> vs[i] == es[i].device.Value()
  {
    if es == [] then [] else Values(es[..|es| - 1]) + [es[|es| - 1].device.Value()]
  }

  /** The calls every backend has seen. */
  ghost function Histories(es: seq<Entry>): (hs: seq<seq<DeviceLife.Call>>)
    reads Objects(es)
    ensures |hs| == |es| && forall i :: 0 <= i < |es| ==> hs[i] == es[i].device.calls
  {
    if es == [] then [] else Histories(es[..|es| - 1]) + [es[|es| - 1].device.calls]
  }

  function CallsOf(o: DeviceLife.Outcome): seq<DeviceLife.Call> {
    if o.called.Some? then [o.called.value] else []
  }

  lemma HeldGrows(es: seq<Entry>, e: Entry)
    ensures Held(es + [e]) == Held(es) + if e.context.Owned? then {e.context.id} else {}
    ensures Objects(es + [e]) == Objects(es) + {e.device}
  {
  }

  lemma HeldNot(es: seq<Entry>, i: nat)
    requires Separate(es) && i < |es| && es[i].context.Owned?
    ensures es[i].context.id in Held(es) && es[i].context.id !in Held(es[..i])
  {
  }

  /** The first error among the closes of `close_all`. */
  function FirstError(ds: seq<DeviceLife.Dev>, answers: nat -> DeviceLife.Answer, n: nat): Option<Errno>
    requires n <= |ds|
  {
    if n == 0 then None
    else
      var before := FirstError(ds, answers, n - 1);
      var o := DeviceLife.Step(ds[n - 1], DeviceLife.ToClose, answers(n - 1));
      if before.None? && o.ret < 0 then o.dev.lastErrno else before
  }

  lemma FirstErrorUnfolds(ds: seq<DeviceLife.Dev>, answers: nat -> DeviceLife.Answer, n: nat)
    requires n < |ds|
    ensures var o := DeviceLife.Step(ds[n], DeviceLife.ToClose, answers(n)); var before := FirstError(ds, answers, n);
      FirstError(ds, answers, n + 1) == if before.None? && o.ret < 0 then o.dev.lastErrno else before
  {
    hide DeviceLife.Step;
  }

  /** The error reported is that of the first close that failed with one; none is reported if none
      did. */
  lemma {:induction false} FirstErrorIsFirst(ds: seq<DeviceLife.Dev>, answers: nat -> DeviceLife.Answer, n: nat)
    requires n <= |ds|
    ensures FirstError(ds, answers, n).None? <==> forall i :: 0 <= i < n ==> !FailsToClose(ds[i], answers(i))
    ensures FirstError(ds, answers, n).Some? ==>
      exists i :: 0 <= i < n && FailsToClose(ds[i], answers(i)) &&
        FirstError(ds, answers, n) == CloseError(ds[i], answers(i)) &&
        forall k :: 0 <= k < i ==> !FailsToClose(ds[k], answers(k))
  {
    hide DeviceLife.Step;
    if n > 0 {
      FirstErrorIsFirst(ds, answers, n - 1);
      FirstErrorUnfolds(ds, answers, n - 1);
    }
  }

  function CloseError(d: DeviceLife.Dev, a: DeviceLife.Answer): Option<Errno> {
    DeviceLife.Step(d, DeviceLife.ToClose, a).dev.lastErrno
  }

  predicate FailsToClose(d: DeviceLife.Dev, a: DeviceLife.Answer) {
    DeviceLife.Step(d, DeviceLife.ToClose, a).ret < 0 && CloseError(d, a).Some?
  }

  lemma NoErrorYet(ds: seq<DeviceLife.Dev>, answers: nat -> DeviceLife.Answer)
    ensures FirstError(ds, answers, 0) == None
  {
  }

  /** What is left of a device that was destroyed: it took its close, and if its context was its own the
      hook closed its backend once more, whatever its state. */
  ghost predicate Destroyed(e: Entry, before: DeviceLife.Dev, calls: seq<DeviceLife.Call>, a: DeviceLife.Answer)
    reads e.device
  {
    exists hook :: DestroyedWith(e, before, calls, a, hook)
  }

  ghost predicate DestroyedWith(e: Entry, before: DeviceLife.Dev, calls: seq<DeviceLife.Call>, a: DeviceLife.Answer,
                                hook: DeviceLife.Answer)
    reads e.device
  {
    var o := DeviceLife.Step(before, DeviceLife.ToClose, a);
    && e.device.Value() == o.dev
    && e.device.calls == calls + CallsOf(o) +
       if e.context.Owned? && e.device.ops.Some? && e.device.ops.value.close
       then [DeviceLife.Call(DeviceLife.BClose, hook)] else []
  }

  /** `device_destroy` with `backend_destroy`: close the device, let the hook close the backend once
      more whatever its state, then release the context. */
  method DestroyDevice(e: Entry, heap: Heap, a: DeviceLife.Answer) returns (ghost hook: DeviceLife.Answer)
    requires heap.Valid() && (e.context.Owned? ==> e.context.id in heap.live)
    modifies e.device, heap
    ensures heap.Valid() && heap.next == old(heap.next)
    ensures heap.live == old(heap.live) - if e.context.Owned? then {e.context.id} else {}
    ensures DestroyedWith(e, old(e.device.Value()), old(e.device.calls), a, hook)
  {
    hide DeviceLife.Step, Heap.Valid;
    hook := *;
    var _ := e.device.Close(a);
    if e.context.Owned? {
      e.device.HookCloses(hook);
      heap.Free(e.context.id);
    }
  }

  /** So a device that is destroyed closed has its backend closed once too often. */
  lemma HookClosesAgain(calls: seq<DeviceLife.Call>, hook: DeviceLife.Answer)
    requires DeviceLife.SeenAll(calls) == DeviceLife.Shut
    ensures DeviceLife.SeenAll(calls + [DeviceLife.Call(DeviceLife.BClose, hook)]) == DeviceLife.Wrong
  {
    DeviceLife.SeenAppend(calls, Some(DeviceLife.Call(DeviceLife.BClose, hook)));
  }

  class Manager {
    const heap: Heap
    var devices: seq<Entry>

    ghost predicate Valid()
      reads this, heap, Objects(devices)
    {
      heap.Valid() && Table(devices) && Settled(devices) && Held(devices) <= heap.live
    }

    /** Exact ownership: the live contexts are those held here. */
    ghost predicate Exact()
      reads this, heap, Objects(devices)
    {
      Valid() && heap.live == Held(devices)
    }

    constructor (heap: Heap)
      ensures this.heap == heap && devices == []
    {
      this.heap, devices := heap, [];
    }

    /** `device_manager_find`. */
    method Find(name: string) returns (r: Option<nat>)
      ensures r.Some? ==> r.value < |devices| && devices[r.value].config.name == name
      ensures r.None? <==> forall i :: 0 <= i < |devices| ==> devices[i].config.name != name
    {
      for i := 0 to |devices|
        invariant forall k :: 0 <= k < i ==> devices[k].config.name != name
      {
        if devices[i].config.name == name {
          return Some(i);
        }
      }
      r := None;
    }

    /** `device_manager_register`: a device whose context stays the caller's. */
    method Register(config: Config, ops: DeviceLife.Ops) returns (error: Option<Errno>)
      requires Valid()
      modifies this
      ensures Valid() && Held(devices) == old(Held(devices))
      ensures error ==
        if !ops.open || !ops.close || !ConfigValid(config) then Some(EINVAL)
        else if exists i :: 0 <= i < |old(devices)| && old(devices)[i].config.name == config.name then Some(EEXIST)
        else if |old(devices)| == MAX_COUNT then Some(ENOSPC)
        else None
      ensures error != None ==> devices == old(devices)
      ensures error == None ==>
        && |devices| == |old(devices)| + 1 && devices[..|old(devices)|] == old(devices)
        && var e := devices[|old(devices)|];
           && e.config == config && e.context == Foreign && fresh(e.device)
           && e.device.Value() == DeviceLife.Init(config.enabled != 0, Some(ops))
    {
      hide ConfigValid, DeviceLife.Valid;
      if !ops.open || !ops.close || !ConfigValid(config) {
        return Some(EINVAL);
      }
      var found := Find(config.name);
      if found.Some? {
        return Some(EEXIST);
      }
      if |devices| == MAX_COUNT {
        return Some(ENOSPC);
      }
      var device := new DeviceLife.Device(config.enabled != 0, Some(ops));
      InitIsValid(config.enabled != 0, Some(ops));
      HeldGrows(devices, Entry(config, Foreign, device));
      devices := devices + [Entry(config, Foreign, device)];
      error := None;
    }

    /** A device found by name and asked something, as the device command does. */
    method Operate(name: string, rq: DeviceLife.Request, a: DeviceLife.Answer) returns (r: Option<int>)
      requires Valid()
      modifies Objects(devices)
      ensures Valid()
      ensures r.None? <==> forall i :: 0 <= i < |devices| ==> devices[i].config.name != name
      ensures r.None? ==> Values(devices) == old(Values(devices))
      ensures forall i :: 0 <= i < |devices| ==>
        var before := old(Values(devices))[i];
        Values(devices)[i] == if devices[i].config.name == name then DeviceLife.Step(before, rq, a).dev else before
      ensures forall i :: 0 <= i < |devices| && devices[i].config.name == name ==>
        var o := DeviceLife.Step(old(Values(devices))[i], rq, a);
        r == Some(o.ret) && Histories(devices)[i] == old(Histories(devices))[i] + CallsOf(o)
      ensures forall i :: 0 <= i < |devices| && devices[i].config.name != name ==>
        Histories(devices)[i] == old(Histories(devices))[i]
    {
      hide ConfigValid, Settled, Values, Histories, DeviceLife.Step;
      var found := Find(name);
      if found.None? {
        return None;
      }
      var ret := OperateAt(found.value, rq, a);
      r := Some(ret);
    }

    method OperateAt(i: nat, rq: DeviceLife.Request, a: DeviceLife.Answer) returns (ret: int)
      requires i < |devices| && Separate(devices) && Settled(devices)
      modifies devices[i].device
      ensures Settled(devices)
      ensures var o := DeviceLife.Step(old(Values(devices))[i], rq, a);
        && ret == o.ret
        && Values(devices) == old(Values(devices))[i := o.dev]
        && Histories(devices) == old(Histories(devices))[i := old(Histories(devices))[i] + CallsOf(o)]
    {
      hide DeviceLife.Valid, DeviceLife.Step, Values, Histories;
      var d := devices[i].device;
      DeviceLife.StepKeepsValid(d.Value(), rq, a);
      ret := d.Perform(rq, a);
    }

    /** `device_manager_close_all`: every device is closed; the first error is reported. */
    method CloseAll(answers: nat -> DeviceLife.Answer) returns (error: Option<Errno>)
      requires Valid()
      modifies Objects(devices)
      ensures Valid()
      ensures forall i :: 0 <= i < |devices| ==>
        Values(devices)[i] == DeviceLife.Step(old(Values(devices))[i], DeviceLife.ToClose, answers(i)).dev
      ensures error == FirstError(old(Values(devices)), answers, |devices|)
    {
      hide Table, Settled, Values, Held, FirstError, DeviceLife.Step;
      TableParts(devices);
      ghost var before := Values(devices);
      NoErrorYet(before, answers);
      error := None;
      for i := 0 to |devices|
        invariant Settled(devices)
        invariant forall k :: 0 <= k < i ==>
          Values(devices)[k] == DeviceLife.Step(before[k], DeviceLife.ToClose, answers(k)).dev
        invariant forall k :: i <= k < |devices| ==> Values(devices)[k] == before[k]
        invariant error == FirstError(before, answers, i)
      {
        FirstErrorUnfolds(before, answers, i);
        var ret, e := CloseAt(i, answers(i));
        if ret < 0 && error == None {
          error := e;
        }
      }
    }

    method CloseAt(i: nat, a: DeviceLife.Answer) returns (ret: int, error: Option<Errno>)
      requires i < |devices| && Separate(devices) && Settled(devices)
      modifies devices[i].device
      ensures Settled(devices)
      ensures var o := DeviceLife.Step(old(Values(devices))[i], DeviceLife.ToClose, a);
        && ret == o.ret && error == o.dev.lastErrno
        && Values(devices) == old(Values(devices))[i := o.dev]
    {
      hide DeviceLife.Valid, DeviceLife.Step;
      var d := devices[i].device;
      DeviceLife.StepKeepsValid(d.Value(), DeviceLife.ToClose, a);
      ret := d.Close(a);
      error := d.lastErrno;
    }

    /** `device_manager_destroy`: each context held is released, once; the table is empty. */
    method Destroy(answers: nat -> DeviceLife.Answer)
      requires Valid()
      modifies this, heap, Objects(devices)
      ensures Valid() && devices == []
      ensures heap.live == old(heap.live) - old(Held(devices)) && heap.next == old(heap.next)
      ensures forall i :: 0 <= i < |old(devices)| ==>
        Destroyed(old(devices)[i], old(Values(devices))[i], old(Histories(devices))[i], answers(i))
    {
      hide DestroyedWith, Table, Values, Histories, Settled, Heap.Valid;
      var es := devices;
      TableParts(es);
      ghost var start, before, calls := heap.live, Values(es), Histories(es);
      for i := 0 to |es|
        invariant devices == es && heap.Valid() && heap.next == old(heap.next)
        invariant forall k :: 0 <= k < i ==> Destroyed(es[k], before[k], calls[k], answers(k))
        invariant forall k :: i <= k < |es| ==> es[k].device.Value() == before[k] && es[k].device.calls == calls[k]
        invariant heap.live == start - Held(es[..i])
      {
        HeldGrows(es[..i], es[i]);
        assert es[..i + 1] == es[..i] + [es[i]];
        if es[i].context.Owned? {
          HeldNot(es, i);
        }
        var _ := DestroyDevice(es[i], heap, answers(i));
      }
      assert es[..|es|] == es;
      devices := [];
      EmptyTable();
    }

    /** One turn of the load loop on the temporary manager. */
    method Admit(config: Config, fails: bool) returns (error: Option<Errno>)
      requires Valid() && ConfigValid(config) && |devices| < MAX_COUNT
      requires forall i :: 0 <= i < |devices| ==> devices[i].config.name != config.name
      modifies this, heap
      ensures Valid()
      ensures error == if fails then Some(ENOMEM) else None
      ensures error != None ==> devices == old(devices) && heap.live == old(heap.live)
      ensures error == None ==>
        && |devices| == |old(devices)| + 1 && devices[..|old(devices)|] == old(devices)
        && BrandNew(devices[|old(devices)|], config) && fresh(devices[|old(devices)|].device)
        && heap.live == old(heap.live) + {old(heap.next)} && Held(devices) == old(Held(devices)) + {old(heap.next)}
        && old(heap.next) !in old(heap.live)
        && Objects(devices) == old(Objects(devices)) + {devices[|old(devices)|].device}
    {
      hide ConfigValid, DeviceLife.Valid;
      var made := BackendInit(heap, config, fails);
      match made
      case Err(e) => error := Some(e);
      case Made(entry) =>
        InitIsValid(config.enabled != 0, Some(OpsOf(config.kind)));
        HeldGrows(devices, entry);
        forall i | 0 <= i < |devices| ensures devices[i].context != entry.context {
          if devices[i].context.Owned? {
            assert devices[i].context.id in Held(devices);
          }
        }
        devices := devices + [entry];
        error := None;
    }

    method AnyOpen() returns (any: bool)
      ensures any <==> exists i :: 0 <= i < |devices| && devices[i].device.isOpen
    {
      for i := 0 to |devices|
        invariant forall k :: 0 <= k < i ==> !devices[k].device.isOpen
      {
        if devices[i].device.isOpen {
          return true;
        }
      }
      any := false;
    }

    /** The loop of `device_manager_load` over the configurations, on a manager still empty. */
    method Fill(list: seq<Config>, fails: nat -> bool) returns (error: Option<Errno>)
      requires heap.Valid() && devices == [] && GoodConfigs(list)
      modifies this, heap
      ensures Valid() && fresh(Objects(devices))
      ensures heap.live == old(heap.live) + Held(devices) && Held(devices) !! old(heap.live)
      ensures error == if NoneFails(fails, |list|) then None else Some(ENOMEM)
      ensures error == None ==> AllNew(devices, list)
    {
      hide ConfigValid, DeviceLife.Valid, Table, Settled, Held, Objects;
      EmptyTable();
      for i := 0 to |list|
        invariant Valid() && fresh(Objects(devices)) && AllNew(devices, list[..i])
        invariant heap.live == old(heap.live) + Held(devices) && Held(devices) !! old(heap.live)
        invariant forall k :: 0 <= k < i ==> !fails(k)
      {
        error := Admit(list[i], fails(i));
        if error != None {
          return;
        }
      }
      assert list[..|list|] == list;
      error := None;
    }

    /** `device_manager_load`: the whole file replaces the table, or nothing changes. */
    method Load(filename: string, file: DeviceConfigLoad.File, fails: nat -> bool, answers: nat -> DeviceLife.Answer)
      returns (error: Option<Errno>)
      requires Exact()
      modifies this, heap, Objects(devices)
      ensures Exact()
      ensures old(AnyOpened(devices)) ==> error == Some(EBUSY)
      ensures error == None <==>
        && !old(AnyOpened(devices)) && DeviceConfigLoad.Succeeds(filename, file)
        && NoneFails(fails, |ListIn(file)|)
      ensures !old(AnyOpened(devices)) && error != None ==>
        error == if DeviceConfigLoad.Succeeds(filename, file) then Some(ENOMEM)
                 else DeviceConfigLoad.Failure(filename, file)
      ensures error != None ==> devices == old(devices) && Values(devices) == old(Values(devices))
      ensures error == None ==> AllNew(devices, ListIn(file)) && fresh(Objects(devices))
    {
      hide Exact, Held, Values, AllNew, DeviceConfig.Load, DeviceConfigLoad.Failure, NoneFails, GoodConfigs;
      var any := AnyOpen();
      if any {
        return Some(EBUSY);
      }
      var list := new DeviceConfigLoad.ConfigList();
      error := list.LoadFile(filename, file);
      if error != None {
        return;
      }
      LoadedIsGood(file.source.rest);
      error := Replace(list.devices, fails, answers);
    }

    method Replace(list: seq<Config>, fails: nat -> bool, answers: nat -> DeviceLife.Answer)
      returns (error: Option<Errno>)
      requires Exact() && GoodConfigs(list)
      modifies this, heap, Objects(devices)
      ensures Exact()
      ensures error == if NoneFails(fails, |list|) then None else Some(ENOMEM)
      ensures error != None ==> devices == old(devices) && Values(devices) == old(Values(devices))
      ensures error == None ==> AllNew(devices, list) && fresh(Objects(devices))
    {
      hide Table, Settled, GoodConfigs, NoneFails, Values, Heap.Valid, DeviceLife.Step, BrandNew;
      var temporary := new Manager(heap);
      error := temporary.Fill(list, fails);
      if error != None {
        temporary.Destroy(answers);
        return;
      }
      TakeOver(temporary, answers);
    }

    /** `*manager = temporary`, after the old devices are destroyed. */
    method TakeOver(temporary: Manager, answers: nat -> DeviceLife.Answer)
      requires Valid() && temporary.Valid() && temporary != this && temporary.heap == heap
      requires Objects(devices) !! Objects(temporary.devices)
      requires Held(devices) !! Held(temporary.devices) && heap.live == Held(devices) + Held(temporary.devices)
      modifies this, heap, Objects(devices)
      ensures Valid() && heap.live == Held(devices)
      ensures devices == temporary.devices == old(temporary.devices)
    {
      hide Table, Settled, Values, Heap.Valid, DeviceLife.Step;
      Destroy(answers);
      devices := temporary.devices;
    }
  }

  predicate NoneFails(fails: nat -> bool, n: nat) {
    forall i :: 0 <= i < n ==> !fails(i)
  }

  /** The devices a file describes. */
  function ListIn(file: DeviceConfigLoad.File): seq<Config> {
    match DeviceConfig.Load(file.source.rest) case Loaded(list) => list case Failed(_) => []
  }

  ghost predicate GoodConfigs(list: seq<Config>) {
    && |list| <= MAX_COUNT
    && (forall i, k :: 0 <= i < k < |list| ==> list[i].name != list[k].name)
    && forall i :: 0 <= i < |list| ==> ConfigValid(list[i])
  }

  lemma LoadedIsGood(file: string)
    requires DeviceConfig.Load(file).Loaded?
    ensures GoodConfigs(DeviceConfig.Load(file).list)
  {
    hide DeviceConfig.Load, ConfigValid, Required, Allowed, DeviceConfigPrint.Reflects;
    DeviceConfigPrint.LoadIsGood(file);
  }

  /** All devices just made, one for each configuration, in order. */
  ghost predicate AllNew(es: seq<Entry>, list: seq<Config>)
    reads Objects(es)
  {
    |es| == |list| && forall i :: 0 <= i < |es| ==> BrandNew(es[i], list[i])
  }

  datatype Made = Made(entry: Entry) | Err(e: Errno)

  /** A device just made by its backend: closed or disabled, with a context of its own. */
  ghost predicate BrandNew(e: Entry, config: Config)
    reads e.device
  {
    && e.config == config && e.context.Owned?
    && e.device.Value() == DeviceLife.Init(config.enabled != 0, Some(OpsOf(config.kind)))
  }

  ghost predicate AnyOpened(es: seq<Entry>)
    reads Objects(es)
  {
    exists i :: 0 <= i < |es| && es[i].device.isOpen
  }

  /** `device_backend_init`. */
  method BackendInit(heap: Heap, config: Config, fails: bool) returns (r: Made)
    requires heap.Valid()
    modifies heap
    ensures heap.Valid()
    ensures r.Err? ==> heap.live == old(heap.live) && heap.next == old(heap.next)
    ensures r == Err(EINVAL) <==> !ConfigValid(config)
    ensures r.Err? ==> r.e == if ConfigValid(config) then ENOMEM else EINVAL
    ensures ConfigValid(config) ==> (r.Err? <==> fails)
    ensures r.Made? ==>
      && BrandNew(r.entry, config) && fresh(r.entry.device) && r.entry.context == Owned(old(heap.next))
      && r.entry.device.enabled == (config.enabled != 0)
      && heap.live == old(heap.live) + {old(heap.next)} && heap.next == old(heap.next) + 1
  {
    if !ConfigValid(config) {
      return Err(EINVAL);
    }
    hide ConfigValid;
    var context := heap.Calloc(fails);
    if context.None? {
      return Err(ENOMEM);
    }
    var device := new DeviceLife.Device(config.enabled != 0, Some(OpsOf(config.kind)));
    r := Made(Entry(config, Owned(context.value), device));
  }

  /** The path of an LED always fits its context, so that exit of `device_backend_init` is dead. */
  lemma LedPathFits(config: Config)
    requires ConfigValid(config)
    ensures |"/sys/class/leds/" + config.ledName + "/brightness"| < PATH_SIZE + NAME_SIZE
  {
  }

  lemma TableParts(es: seq<Entry>)
    requires Table(es)
    ensures Separate(es) && |es| <= MAX_COUNT
  {
  }

  lemma EmptyTable()
    ensures Table([]) && Settled([]) && Held([]) == {} && Objects([]) == {}
  {
  }

  lemma InitIsValid(enabled: bool, ops: Option<DeviceLife.Ops>)
    ensures DeviceLife.Valid(DeviceLife.Init(enabled, ops))
  {
  }

  // ---------------------------------------------------------------- whole runs

  /** What a shell can do to its devices. */
  datatype Action =
    | Reload(filename: string, file: DeviceConfigLoad.File, fails: nat -> bool, answers: nat -> DeviceLife.Answer)
    | Add(config: Config, ops: DeviceLife.Ops)
    | Ask(name: string, request: DeviceLife.Request, answer: DeviceLife.Answer)
    | CloseEvery(answers: nat -> DeviceLife.Answer)

  method Act(m: Manager, action: Action)
    requires m.Exact()
    modifies m, m.heap, Objects(m.devices)
    ensures m.Exact() && fresh(Objects(m.devices) - old(Objects(m.devices)))
  {
    hide Manager.Valid, Held, Values, AllNew;
    match action
    case Reload(filename, file, fails, answers) => var _ := m.Load(filename, file, fails, answers);
    case Add(config, ops) => var _ := m.Register(config, ops);
    case Ask(name, rq, a) => var _ := m.Operate(name, rq, a);
    case CloseEvery(answers) => var _ := m.CloseAll(answers);
  }

  /** Any run of a shell, from start to exit: at every point the live contexts are exactly
      those its manager holds, and at the end every context that was ever allocated has been
      freed exactly once. */
  method Session(script: seq<Action>, answers: nat -> DeviceLife.Answer) returns (heap: Heap)
    ensures heap.live == {}
    ensures forall p :: 0 <= p < heap.next ==> p in heap.freed
    ensures forall i, k :: 0 <= i < k < |heap.freed| ==> heap.freed[i] != heap.freed[k]
  {
    hide Table;
    EmptyTable();
    heap := new Heap();
    var m := new Manager(heap);
    for i := 0 to |script|
      invariant m.heap == heap && fresh(m) && fresh(heap) && fresh(Objects(m.devices)) && m.Exact()
    {
      Act(m, script[i]);
    }
    m.Destroy(answers);
  }
}

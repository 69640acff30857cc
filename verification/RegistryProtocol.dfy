/**
 * The decision server as a transition system (docker/decision/server.py): any number of threads run
 * `load`, `unload`, prediction requests and one `restore`, and their atomic steps interleave in any
 * order. A step is a block under the registry mutex, one acquire, recheck or release of a model's
 * lock, or one thread-local effect. The loader, the predictor, the memory probe, `resolve_path` and
 * the file system are nondeterministic: their outcome is an argument of the action.
 */
module RegistryProtocol {
  import opened Wrappers
  import opened DecisionRegistry

  // ------------------------------------------------------------------------------------------
  // Threads
  // ------------------------------------------------------------------------------------------

  /** Who called `load`: the admin API, or `restore` with the entries it still has to do. */
  datatype Caller = Admin | Boot(entry: Raw, todo: seq<Raw>, seen: set<string>)

  datatype ReserveStep = Reserved | Refused               // Refused: too little GPU memory
  datatype MakeStep = Loading | Broken | Loaded           // the loader runs, raised, or returned
  datatype UnloadStep = Popped | Clearing | Cleared       // waits for the lock; holds it, before and after dropping the model
  datatype RunStep = Fetched | Waiting | Locked | Predicting | Leaving

  /** Where a thread stands. */
  datatype Pc =
    | Idle                                                // may start any operation
    | Stopped                                             // the restore thread, once it is done
    | Reserving(reserving: ReserveStep, name: string, path: string, in4: bool, msl: int, caller: Caller)
    | Making(making: MakeStep, name: string, id: nat, caller: Caller)
    | Unload(unloading: UnloadStep, id: nat)
    | Run(running: RunStep, id: nat)                      // a prediction request that has fetched its object
    | BootNext(todo: seq<Raw>, seen: set<string>)
    | BootFailed(entry: Raw, todo: seq<Raw>, seen: set<string>)
    | BootSaved

  datatype State = State(reg: Reg, threads: seq<Pc>)

  /** A load in flight: it has reserved `pc.name`. */
  predicate Loads(pc: Pc) { pc.Reserving? || pc.Making? }

  /** The thread holds the lock of `pc.id`. */
  predicate Holds(pc: Pc) {
    || (pc.Unload? && !pc.unloading.Popped?)
    || (pc.Run? && (pc.running.Locked? || pc.running.Predicting? || pc.running.Leaving?))
  }

  /** Where a failed load leaves its thread: an error to the admin, or restore's handler. */
  function AfterFailure(c: Caller): Pc {
    match c
    case Admin => Idle
    case Boot(e, todo, seen) => BootFailed(e, todo, seen)
  }

  function AfterSuccess(c: Caller): Pc {
    match c
    case Admin => Idle
    case Boot(_, todo, seen) => BootNext(todo, seen)
  }

  // ------------------------------------------------------------------------------------------
  // Actions
  // ------------------------------------------------------------------------------------------

  /** One atomic step of thread `t`, with the outcome of whatever it calls. */
  datatype Action =
    | StartLoad(t: nat, name: string, in4: bool, msl: int, target: Option<string>)
    | Probe(t: nat, enough: bool)
    | LoaderReturns(t: nat, ok: bool)
    | GiveUp(t: nat)
    | CommitLoad(t: nat, wrote: bool)
    | StartUnload(t: nat, name: string, wrote: bool)
    | LockForUnload(t: nat)
    | DropModel(t: nat)
    | FinishUnload(t: nat)
    | Fetch(t: nat, name: string)
    | Look(t: nat)
    | LockForRun(t: nat)
    | TimeOut(t: nat)
    | Recheck(t: nat)
    | PredictorReturns(t: nat)
    | Release(t: nat)
    | BootTry(t: nat, target: Option<string>)
    | BootKeep(t: nat)
    | BootSave(t: nat, wrote: bool)
    | BootReady(t: nat)

  /** Can the thread take this step now? A lock can only be acquired while it is free. */
  predicate Enabled(s: State, a: Action) {
    a.t < |s.threads| &&
    var pc := s.threads[a.t];
    match a
    case StartLoad(_, _, _, _, target) => pc.Idle? && (target.Some? ==> target.value != "")
    case Probe(_, _) => pc.Reserving? && pc.reserving.Reserved?
    case LoaderReturns(_, _) => pc.Making? && pc.making.Loading?
    case GiveUp(_) => (pc.Reserving? && pc.reserving.Refused?) || (pc.Making? && pc.making.Broken?)
    case CommitLoad(_, _) => pc.Making? && pc.making.Loaded?
    case StartUnload(_, _, _) => pc.Idle?
    case LockForUnload(_) => pc.Unload? && pc.unloading.Popped? && Free(s.reg, pc.id)
    case DropModel(_) => pc.Unload? && pc.unloading.Clearing?
    case FinishUnload(_) => pc.Unload? && pc.unloading.Cleared?
    case Fetch(_, _) => pc.Idle?
    case Look(_) => pc.Run? && pc.running.Fetched?
    case LockForRun(_) => pc.Run? && pc.running.Waiting? && Free(s.reg, pc.id)
    case TimeOut(_) => pc.Run? && pc.running.Waiting?
    case Recheck(_) => pc.Run? && pc.running.Locked?
    case PredictorReturns(_) => pc.Run? && pc.running.Predicting?
    case Release(_) => pc.Run? && pc.running.Leaving?
    case BootTry(_, target) => pc.BootNext? && pc.todo != [] && (target.Some? ==> target.value != "")
    case BootKeep(_) => pc.BootFailed?
    case BootSave(_, _) => pc.BootNext? && pc.todo == []
    case BootReady(_) => pc.BootSaved?
  }

  predicate Free(r: Reg, id: nat) { id < |r.heap| && r.heap[id].holder.None? }

  function Goto(s: State, t: nat, pc: Pc): State {
    if t < |s.threads| then s.(threads := s.threads[t := pc]) else s
  }

  function SetLock(r: Reg, id: nat, holder: Option<nat>): Reg {
    if id < |r.heap| then r.(heap := r.heap[id := r.heap[id].(holder := holder)]) else r
  }

  function SetLoaded(r: Reg, id: nat, loaded: bool): Reg {
    if id < |r.heap| then r.(heap := r.heap[id := r.heap[id].(loaded := loaded)]) else r
  }

  /** `served = Served(...)` in `load`. */
  function Make(r: Reg, name: string, path: string, in4: bool, msl: int, t: nat): Reg {
    r.(heap := r.heap + [Served(name, path, in4, msl, false, None, Fresh(t))])
  }

  /** The checks `load` makes before its reservation, then the reservation. */
  function EnterLoad(s: State, t: nat, name: string, target: Option<string>, in4: bool, msl: int, caller: Caller): State {
    if !NameOk(name) || !MslOk(msl) || target.None? then Goto(s, t, AfterFailure(caller))
    else
      var r := Reserve(s.reg, name, t);
      if r.None? then Goto(s, t, AfterFailure(caller))
      else Goto(s.(reg := r.value), t, Reserving(Reserved, name, target.value, in4, msl, caller))
  }

  /** One turn of restore's loop up to the reservation of its load. */
  function EnterBoot(s: State, t: nat, e: Raw, todo: seq<Raw>, seen: set<string>, target: Option<string>): State {
    if e.Junk? || e.name in seen then Goto(s, t, BootNext(todo, seen))
    else
      var resolved := if e.path.PathText? && e.path.text != "" then target else None;
      EnterLoad(s, t, e.name, resolved, e.in4, ReadMsl(e.msl), Boot(e, todo, seen + {e.name}))
  }

  /** The state after an enabled action. */
  function Do(s: State, a: Action): State
    requires Enabled(s, a) && IdsKnown(s.reg.models, s.reg.heap)
  {
    var t := a.t;
    var pc := s.threads[t];
    var r := s.reg;
    match a
    case StartLoad(_, name, in4, msl, target) => EnterLoad(s, t, name, target, in4, msl, Admin)
    case Probe(_, enough) =>
      if enough then Goto(s.(reg := Make(r, pc.name, pc.path, pc.in4, pc.msl, t)), t, Making(Loading, pc.name, |r.heap|, pc.caller))
      else Goto(s, t, pc.(reserving := Refused))
    case LoaderReturns(_, ok) =>
      if ok then Goto(s.(reg := SetLoaded(r, pc.id, true)), t, pc.(making := Loaded))
      else Goto(s, t, pc.(making := Broken))
    case GiveUp(_) => Goto(s.(reg := Discard(r, pc.name)), t, AfterFailure(pc.caller))
    case CommitLoad(_, wrote) =>
      if pc.id < |r.heap|
      then Goto(s.(reg := Commit(r, pc.name, pc.id, pc.caller.Admin?, wrote)), t, AfterSuccess(pc.caller))
      else s
    case StartUnload(_, name, wrote) =>
      if name in r.loading || !Has(r.models, name) then s
      else Goto(s.(reg := Pop(r, name, wrote)), t, Unload(Popped, r.models[IndexOf(r.models, name)].id))
    case LockForUnload(_) => Goto(s.(reg := SetLock(r, pc.id, Some(t))), t, pc.(unloading := Clearing))
    case DropModel(_) => Goto(s.(reg := SetLoaded(r, pc.id, false)), t, pc.(unloading := Cleared))
    case FinishUnload(_) => Goto(s.(reg := SetLock(r, pc.id, None)), t, Idle)
    case Fetch(_, name) =>
      if Has(r.models, name) then Goto(s, t, Run(Fetched, r.models[IndexOf(r.models, name)].id)) else s
    case Look(_) => Goto(s, t, if IsLoaded(r.heap, pc.id) then pc.(running := Waiting) else Idle)
    case LockForRun(_) => Goto(s.(reg := SetLock(r, pc.id, Some(t))), t, pc.(running := Locked))
    case TimeOut(_) => Goto(s, t, Idle)
    case Recheck(_) => Goto(s, t, pc.(running := if IsLoaded(r.heap, pc.id) then Predicting else Leaving))
    case PredictorReturns(_) => Goto(s, t, pc.(running := Leaving))
    case Release(_) => Goto(s.(reg := SetLock(r, pc.id, None)), t, Idle)
    case BootTry(_, target) => EnterBoot(s, t, pc.todo[0], pc.todo[1..], pc.seen, target)
    case BootKeep(_) =>
      var e := pc.entry;
      Goto(if e.Raw? && NameOk(e.name) then s.(reg := Place(r, Placeholder(e))) else s, t, BootNext(pc.todo, pc.seen))
    case BootSave(_, wrote) => Goto(s.(reg := Persist(r.(settled := true), wrote)), t, BootSaved)
    case BootReady(_) => Goto(s.(reg := r.(ready := true)), t, Stopped)
  }

  // ------------------------------------------------------------------------------------------
  // The invariant
  // ------------------------------------------------------------------------------------------

  /** The keys are distinct and valid names, and each maps to its own live, known object. */
  predicate SlotOk(x: Slot, h: seq<Served>) {
    && x.id < |h| && h[x.id].name == x.name && h[x.id].stage == Live && h[x.id].msl >= 0
    && NameOk(x.name)
  }

  ghost predicate DictInv(r: Reg) {
    && (forall i :: 0 <= i < |r.models| ==> SlotOk(r.models[i], r.heap))
    && (forall i, j :: 0 <= i < j < |r.models| ==> r.models[i].name != r.models[j].name)
  }

  /** A reserved name never maps to a loaded model. */
  ghost predicate ReservedInv(r: Reg) {
    forall i :: 0 <= i < |r.models| && r.models[i].name in r.loading ==> !IsLoaded(r.heap, r.models[i].id)
  }

  function Cap(max: int): nat { if max < 0 then 0 else max }

  ghost predicate CapacityInv(r: Reg) {
    LoadedCount(r.models, r.heap) + |r.loading| <= Cap(r.max)
  }

  /** Reservations and loads in flight correspond one to one. */
  ghost predicate OwnerInv(s: State) {
    && (forall n :: n in s.reg.loading ==>
          var t := s.reg.loading[n];
          t < |s.threads| && Loads(s.threads[t]) && s.threads[t].name == n)
    && (forall t :: 0 <= t < |s.threads| && Loads(s.threads[t]) ==>
          && s.threads[t].name in s.reg.loading
          && s.reg.loading[s.threads[t].name] == t)
  }

  /** Locks and lock holders correspond one to one. */
  ghost predicate LockInv(s: State) {
    && (forall id :: 0 <= id < |s.reg.heap| && s.reg.heap[id].holder.Some? ==>
          var t := s.reg.heap[id].holder.value;
          t < |s.threads| && Holds(s.threads[t]) && s.threads[t].id == id)
    && (forall t :: 0 <= t < |s.threads| && Holds(s.threads[t]) ==>
          s.threads[t].id < |s.reg.heap| && s.reg.heap[s.threads[t].id].holder == Some(t))
  }

  /** A thread inside `restore`, before its final write. */
  predicate Boots(pc: Pc) {
    || pc.BootNext? || pc.BootFailed?
    || (Loads(pc) && pc.caller.Boot?)
  }

  /** What the place of one thread says about its object, and about `restore`: only thread 0 runs it. */
  ghost predicate ThreadInv(r: Reg, t: nat, pc: Pc) {
    && (Boots(pc) ==> t == 0 && !r.settled)
    && (pc.BootSaved? ==> r.settled)
    && match pc
       case Reserving(_, name, path, _, msl, _) => NameOk(name) && path != "" && MslOk(msl)
       case Making(step, name, id, _) =>
         && NameOk(name) && id < |r.heap| && r.heap[id].stage == Fresh(t) && r.heap[id].name == name
         && r.heap[id].path != "" && MslOk(r.heap[id].msl) && (r.heap[id].loaded <==> step.Loaded?)
       case Unload(step, id) => id < |r.heap| && r.heap[id].stage == Gone && (step.Cleared? ==> !r.heap[id].loaded)
       case Run(step, id) => id < |r.heap| && !r.heap[id].stage.Fresh? && (step.Predicting? ==> r.heap[id].loaded)
       case _ => true
  }

  ghost predicate ThreadsInv(s: State) {
    forall t :: 0 <= t < |s.threads| ==> ThreadInv(s.reg, t, s.threads[t])
  }

  /** Once `restore` has saved, the file is what the registry holds whenever its last write worked. */
  ghost predicate DiskInv(r: Reg) {
    && IdsKnown(r.models, r.heap)
    && (r.settled && r.written ==> r.disk == Entries(r.models, r.heap))
    && (r.ready ==> r.settled)
  }

  ghost predicate Inv(s: State) {
    && DictInv(s.reg) && ReservedInv(s.reg) && CapacityInv(s.reg) && DiskInv(s.reg)
    && OwnerInv(s) && LockInv(s) && ThreadsInv(s)
  }

  /** A server that has just started on a state file: one restore thread, `n` idle ones. */
  function Start(max: int, disk: seq<FileEntry>, todo: seq<Raw>, n: nat): State {
    State(Reg(max, [], [], map[], disk, false, false, false),
          [BootNext(todo, {})] + seq(n, _ => Idle))
  }

  lemma StartInv(max: int, disk: seq<FileEntry>, todo: seq<Raw>, n: nat)
    ensures Inv(Start(max, disk, todo, n))
  {
    var s := Start(max, disk, todo, n);
    assert forall t :: 0 < t < |s.threads| ==> s.threads[t].Idle?;
    assert DictInv(s.reg) && ReservedInv(s.reg) && CapacityInv(s.reg) && DiskInv(s.reg);
    assert OwnerInv(s) && LockInv(s);
    forall t | 0 <= t < |s.threads|
      ensures ThreadInv(s.reg, t, s.threads[t])
    {
    }
  }
}

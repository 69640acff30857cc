/** What holds in every state of every run of the decision server. */
module RegistryTheorems {
  import opened Wrappers
  import opened DecisionRegistry
  import opened RegistryProtocol
  import opened RegistrySafety

  // ------------------------------------------------------------------------------------------
  // Runs
  // ------------------------------------------------------------------------------------------

  /** The actions can be taken one after the other from `s`. */
  ghost predicate Possible(s: State, run: seq<Action>)
    decreases |run|
  {
    run != [] ==>
      && IdsKnown(s.reg.models, s.reg.heap) && Enabled(s, run[0])
      && Possible(Do(s, run[0]), run[1..])
  }

  ghost function After(s: State, run: seq<Action>): State
    requires Possible(s, run)
    decreases |run|
  {
    if run == [] then s else After(Do(s, run[0]), run[1..])
  }

  lemma {:induction false} RunKeepsInv(s: State, run: seq<Action>)
    requires Inv(s) && Possible(s, run)
    ensures Inv(After(s, run))
    decreases |run|
  {
    if run != [] {
      StepInv(s, run[0]);
      RunKeepsInv(Do(s, run[0]), run[1..]);
    }
  }

  // ------------------------------------------------------------------------------------------
  // Capacity and reservations
  // ------------------------------------------------------------------------------------------

  /** However loads, unloads and the restore interleave, registered and loading models fit the limit. */
  lemma CapacityAlwaysHolds(max: nat, disk: seq<FileEntry>, todo: seq<Raw>, n: nat, run: seq<Action>)
    requires Possible(Start(max, disk, todo, n), run)
    ensures var r := After(Start(max, disk, todo, n), run).reg;
            LoadedCount(r.models, r.heap) + |r.loading| <= max
  {
    StartInv(max, disk, todo, n);
    RunKeepsInv(Start(max, disk, todo, n), run);
    MaxIsFixed(Start(max, disk, todo, n), run);
  }

  lemma {:induction false} MaxIsFixed(s: State, run: seq<Action>)
    requires Possible(s, run)
    ensures After(s, run).reg.max == s.reg.max
    decreases |run|
  {
    if run != [] {
      MaxIsFixed(Do(s, run[0]), run[1..]);
    }
  }

  /** A reserved name has exactly one load in flight, and the dictionary holds no loaded model for it. */
  lemma ReservationsAreLoads(s: State, run: seq<Action>, name: string)
    requires Inv(s) && Possible(s, run)
    ensures var s' := After(s, run);
            && (name in s'.reg.loading <==>
                  exists t :: 0 <= t < |s'.threads| && Loads(s'.threads[t]) && s'.threads[t].name == name)
            && (forall t, u :: 0 <= t < u < |s'.threads| && Loads(s'.threads[t]) && Loads(s'.threads[u]) ==>
                  s'.threads[t].name != s'.threads[u].name)
            && (name in s'.reg.loading && Has(s'.reg.models, name) ==>
                  !IsLoaded(s'.reg.heap, s'.reg.models[IndexOf(s'.reg.models, name)].id))
  {
    RunKeepsInv(s, run);
    var s' := After(s, run);
    if name in s'.reg.loading {
      var t := s'.reg.loading[name];
      assert Loads(s'.threads[t]) && s'.threads[t].name == name;
    }
  }

  /** So every way out of `load` gives its reservation back: the set is the names of the loads in flight. */
  lemma NoReservationLeaks(s: State, run: seq<Action>)
    requires Inv(s) && Possible(s, run)
    ensures var s' := After(s, run);
            s'.reg.loading.Keys == set t | 0 <= t < |s'.threads| && Loads(s'.threads[t]) :: s'.threads[t].name
  {
    RunKeepsInv(s, run);
  }

  /** A commit puts its model under a free name or over a placeholder that failed to load. */
  lemma CommitReplacesNothingLoaded(s: State, t: nat, wrote: bool)
    requires Inv(s) && Enabled(s, CommitLoad(t, wrote))
    ensures var name := s.threads[t].name;
            var r' := Do(s, CommitLoad(t, wrote)).reg;
            && (Has(s.reg.models, name) ==> !IsLoaded(s.reg.heap, s.reg.models[IndexOf(s.reg.models, name)].id))
            && Get(r'.models, name) == Some(s.threads[t].id) && IsLoaded(r'.heap, s.threads[t].id)
            && LoadedCount(r'.models, r'.heap) + |r'.loading| == LoadedCount(s.reg.models, s.reg.heap) + |s.reg.loading|
  {
    var pc := s.threads[t];
    assert ThreadInv(s.reg, t, pc);
    ReservedIsNotLoaded(s.reg, pc.name);
    CommitTrades(s.reg, pc.name, pc.id, pc.caller.Admin?, wrote);
    CommitStep(s, t, wrote);
  }

  lemma CommitTrades(r: Reg, name: string, id: nat, persist: bool, wrote: bool)
    requires RegInv(r) && id < |r.heap| && name in r.loading && r.heap[id].loaded
    ensures var r' := Commit(r, name, id, persist, wrote);
            && Get(r'.models, name) == Some(id) && IsLoaded(r'.heap, id)
            && LoadedCount(r'.models, r'.heap) + |r'.loading| == LoadedCount(r.models, r.heap) + |r.loading|
  {
    CommitCount(r, name, id);
    CommitKeeps(r, name, id, persist, wrote);
    PersistKeeps(r, name, id, persist, wrote);
    PutFinds(r.models, name, id);
  }

  /** Saving after a commit changes only the file. */
  lemma PersistKeeps(r: Reg, name: string, id: nat, persist: bool, wrote: bool)
    requires id < |r.heap| && IdsKnown(r.models, r.heap)
    ensures var r', c := Commit(r, name, id, persist, wrote), Committed(r, name, id);
            r'.models == c.models == Put(r.models, name, id) && r'.heap == c.heap && r'.loading == c.loading
  {
  }

  lemma PutFinds(d: seq<Slot>, name: string, id: nat)
    ensures Get(Put(d, name, id), name) == Some(id)
  {
    var i := IndexOf(d, name);
    var d' := Put(d, name, id);
    assert d'[i] == Slot(name, id);
    var k := IndexOf(d', name);
    assert k >= i;
  }

  /** A model appears only in an object its load still owns, and disappears only from a popped one. */
  predicate ModelMoves(h: Served, h': Served) {
    && (h.stage.Gone? ==> h'.stage.Gone?)
    && (h'.loaded == h.loaded || h.stage.Fresh? || (h.stage.Gone? && !h'.loaded))
  }

  lemma ObjectStep(s: State, a: Action, id: nat)
    requires Inv(s) && Enabled(s, a) && id < |s.reg.heap|
    ensures id < |Do(s, a).reg.heap| && ModelMoves(s.reg.heap[id], Do(s, a).reg.heap[id])
  {
    if a.CommitLoad? {
      CommitMoves(s, a.t, a.wrote, id);
    } else if a.StartUnload? {
      UnloadMoves(s, a.t, a.name, a.wrote, id);
    } else if a.LoaderReturns? || a.DropModel? {
      ModelEffects(s, a, id);
    } else {
      ObjectStays(s, a, id);
    }
  }

  lemma CommitMoves(s: State, t: nat, wrote: bool, id: nat)
    requires Inv(s) && Enabled(s, CommitLoad(t, wrote)) && id < |s.reg.heap|
    ensures var s' := Do(s, CommitLoad(t, wrote));
            id < |s'.reg.heap| && ModelMoves(s.reg.heap[id], s'.reg.heap[id])
  {
    var pc := s.threads[t];
    assert ThreadInv(s.reg, t, pc);
    CommitKeeps(s.reg, pc.name, pc.id, pc.caller.Admin?, wrote);
    FrameMoves(s.reg, Do(s, CommitLoad(t, wrote)).reg, pc.name, pc.id, id);
  }

  lemma FrameMoves(r: Reg, r': Reg, name: string, own: nat, id: nat)
    requires CommitFrame(r, r', name, own) && id < |r.heap| && own < |r.heap|
    requires r.heap[own].stage.Fresh?
    ensures ModelMoves(r.heap[id], r'.heap[id])
  {
  }

  lemma UnloadMoves(s: State, t: nat, name: string, wrote: bool, id: nat)
    requires Inv(s) && Enabled(s, StartUnload(t, name, wrote)) && id < |s.reg.heap|
    ensures var s' := Do(s, StartUnload(t, name, wrote));
            id < |s'.reg.heap| && ModelMoves(s.reg.heap[id], s'.reg.heap[id])
  {
    if name !in s.reg.loading && Has(s.reg.models, name) {
      PopKeeps(s.reg, name, wrote);
    }
  }

  lemma ModelEffects(s: State, a: Action, id: nat)
    requires Inv(s) && Enabled(s, a) && id < |s.reg.heap| && (a.LoaderReturns? || a.DropModel?)
    ensures id < |Do(s, a).reg.heap| && ModelMoves(s.reg.heap[id], Do(s, a).reg.heap[id])
  {
    assert ThreadInv(s.reg, a.t, s.threads[a.t]);
  }

  /** Only its lock may change. */
  predicate SameButLock(h: Served, h': Served) { h'.(holder := None) == h.(holder := None) }

  lemma ObjectStays(s: State, a: Action, id: nat)
    requires Inv(s) && Enabled(s, a) && id < |s.reg.heap|
    requires !a.CommitLoad? && !a.StartUnload? && !a.LoaderReturns? && !a.DropModel?
    ensures id < |Do(s, a).reg.heap| && SameButLock(s.reg.heap[id], Do(s, a).reg.heap[id])
  {
    if a.StartLoad? || a.BootTry? {
      EnteringStays(s, a, id);
    } else if a.LockForUnload? || a.FinishUnload? || a.LockForRun? || a.Release? {
      LockingStays(s, a, id);
    } else if a.Probe? || a.GiveUp? || a.BootKeep? || a.BootSave? || a.BootReady? {
      MakingStays(s, a, id);
    }
  }

  lemma EnteringStays(s: State, a: Action, id: nat)
    requires IdsKnown(s.reg.models, s.reg.heap) && Enabled(s, a) && id < |s.reg.heap| && (a.StartLoad? || a.BootTry?)
    ensures Do(s, a).reg.heap == s.reg.heap
  {
  }

  lemma LockingStays(s: State, a: Action, id: nat)
    requires IdsKnown(s.reg.models, s.reg.heap) && Enabled(s, a) && id < |s.reg.heap|
    requires a.LockForUnload? || a.FinishUnload? || a.LockForRun? || a.Release?
    ensures id < |Do(s, a).reg.heap| && SameButLock(s.reg.heap[id], Do(s, a).reg.heap[id])
  {
  }

  lemma MakingStays(s: State, a: Action, id: nat)
    requires IdsKnown(s.reg.models, s.reg.heap) && Enabled(s, a) && id < |s.reg.heap|
    requires a.Probe? || a.GiveUp? || a.BootKeep? || a.BootSave? || a.BootReady?
    ensures id < |Do(s, a).reg.heap| && Do(s, a).reg.heap[id] == s.reg.heap[id]
  {
  }

  /** So whether an object has a model does not change while it is in the dictionary. */
  lemma LoadednessIsStable(s: State, a: Action, i: nat)
    requires Inv(s) && Enabled(s, a) && i < |s.reg.models|
    ensures IsLoaded(Do(s, a).reg.heap, s.reg.models[i].id) == IsLoaded(s.reg.heap, s.reg.models[i].id)
  {
    ObjectStep(s, a, s.reg.models[i].id);
  }

  // ------------------------------------------------------------------------------------------
  // Predictions
  // ------------------------------------------------------------------------------------------

  /** Thread `t` is inside the predictor, on object `id`. */
  predicate PredictsOn(s: State, t: nat, id: nat) {
    t < |s.threads| && s.threads[t] == Run(Predicting, id)
  }

  /** In every state of a prediction its model is there, and no other thread predicts with it. */
  lemma PredictionsAreSafe(s: State, run: seq<Action>, t: nat, u: nat, id: nat)
    requires Inv(s) && Possible(s, run) && PredictsOn(After(s, run), t, id)
    ensures IsLoaded(After(s, run).reg.heap, id)
    ensures PredictsOn(After(s, run), u, id) ==> u == t
  {
    RunKeepsInv(s, run);
    var s' := After(s, run);
    assert ThreadInv(s'.reg, t, s'.threads[t]);
    assert Holds(s'.threads[t]);
  }

  /** The object has left the dictionary and has no model. */
  ghost predicate Retired(s: State, id: nat) {
    id < |s.reg.heap| && s.reg.heap[id].stage == Gone && !s.reg.heap[id].loaded
  }

  lemma RetiredStays(s: State, a: Action, id: nat)
    requires Inv(s) && Enabled(s, a) && Retired(s, id)
    ensures Retired(Do(s, a), id)
  {
    ObjectStep(s, a, id);
  }

  lemma RetiredIsIdle(s: State, id: nat, u: nat)
    requires Inv(s) && Retired(s, id)
    ensures !PredictsOn(s, u, id)
  {
    if u < |s.threads| {
      assert ThreadInv(s.reg, u, s.threads[u]);
    }
  }

  lemma {:induction false} RetiredForever(s: State, run: seq<Action>, id: nat)
    requires Inv(s) && Possible(s, run) && Retired(s, id)
    ensures Inv(After(s, run)) && Retired(After(s, run), id)
    decreases |run|
  {
    if run != [] {
      StepInv(s, run[0]);
      RetiredStays(s, run[0], id);
      RetiredForever(Do(s, run[0]), run[1..], id);
    }
  }

  /**
   * Once `unload` has returned, no prediction starts or goes on with that model: not in the state it
   * leaves and not in any later one, not even for a request that had fetched the object before.
   */
  lemma UnloadIsFinal(s: State, t: nat, run: seq<Action>, u: nat)
    requires Inv(s) && Enabled(s, FinishUnload(t)) && Possible(Do(s, FinishUnload(t)), run)
    ensures !PredictsOn(After(Do(s, FinishUnload(t)), run), u, s.threads[t].id)
  {
    var id := s.threads[t].id;
    assert ThreadInv(s.reg, t, s.threads[t]);
    StepInv(s, FinishUnload(t));
    var s' := Do(s, FinishUnload(t));
    RetiredForever(s', run, id);
    RetiredIsIdle(After(s', run), id, u);
  }

  // ------------------------------------------------------------------------------------------
  // Progress
  // ------------------------------------------------------------------------------------------

  ghost predicate CanMove(s: State, t: nat) {
    exists a: Action :: a.t == t && Enabled(s, a)
  }

  /** The thread waits for a lock that another thread holds. */
  ghost predicate WaitsFor(s: State, t: nat, u: nat) {
    && t < |s.threads| && u < |s.threads|
    && (s.threads[t].Unload? || s.threads[t].Run?)
    && s.threads[t].id < |s.reg.heap|
    && s.reg.heap[s.threads[t].id].holder == Some(u)
  }

  lemma LockHolderMoves(s: State, u: nat)
    requires u < |s.threads| && Holds(s.threads[u])
    ensures CanMove(s, u)
  {
    var pc := s.threads[u];
    var a := match pc
      case Unload(Clearing, _) => DropModel(u)
      case Unload(_, _) => FinishUnload(u)
      case Run(Locked, _) => Recheck(u)
      case Run(Predicting, _) => PredictorReturns(u)
      case _ => Release(u);
    assert Enabled(s, a);
  }

  /** No deadlock: a thread in the middle of something can move, or waits for one that can. */
  lemma NoDeadlock(s: State, run: seq<Action>, t: nat)
    requires Inv(s) && Possible(s, run) && t < |After(s, run).threads| && !After(s, run).threads[t].Stopped?
    ensures var s' := After(s, run); CanMove(s', t) || exists u :: WaitsFor(s', t, u) && CanMove(s', u)
  {
    RunKeepsInv(s, run);
    var s' := After(s, run);
    var pc := s'.threads[t];
    assert ThreadInv(s'.reg, t, pc);
    if Holds(pc) {
      LockHolderMoves(s', t);
    } else if (pc.Unload? || (pc.Run? && pc.running.Waiting?)) && !Free(s'.reg, pc.id) {
      var u := s'.reg.heap[pc.id].holder.value;
      LockHolderMoves(s', u);
      assert WaitsFor(s', t, u);
    } else {
      var a := match pc
        case Idle => Fetch(t, "")
        case Reserving(Reserved, _, _, _, _, _) => Probe(t, true)
        case Reserving(_, _, _, _, _, _) => GiveUp(t)
        case Making(Loading, _, _, _) => LoaderReturns(t, true)
        case Making(Broken, _, _, _) => GiveUp(t)
        case Making(_, _, _, _) => CommitLoad(t, true)
        case Unload(_, _) => LockForUnload(t)
        case Run(Fetched, _) => Look(t)
        case Run(_, _) => LockForRun(t)
        case BootNext(todo, _) => if todo == [] then BootSave(t, true) else BootTry(t, None)
        case BootFailed(_, _, _) => BootKeep(t)
        case _ => BootReady(t);
      assert Enabled(s', a);
    }
  }

  // ------------------------------------------------------------------------------------------
  // The state file
  // ------------------------------------------------------------------------------------------

  function Names(file: seq<FileEntry>): seq<string> {
    seq(|file|, i requires 0 <= i < |file| => file[i].name)
  }

  /** Once the server is ready, the file says what the registry holds whenever its last write worked. */
  lemma FileFollowsRegistry(max: int, disk: seq<FileEntry>, todo: seq<Raw>, n: nat, run: seq<Action>)
    requires Possible(Start(max, disk, todo, n), run)
    ensures var r := After(Start(max, disk, todo, n), run).reg;
            && IdsKnown(r.models, r.heap)
            && (r.ready && r.written ==> r.disk == Entries(r.models, r.heap))
  {
    StartInv(max, disk, todo, n);
    FileFollowsRun(Start(max, disk, todo, n), run);
  }

  lemma FileFollowsRun(s: State, run: seq<Action>)
    requires Inv(s) && Possible(s, run)
    ensures var r := After(s, run).reg;
            && IdsKnown(r.models, r.heap)
            && (r.ready && r.written ==> r.disk == Entries(r.models, r.heap))
  {
    RunKeepsInv(s, run);
  }

  /** An admin load that returns, and whose write worked, is served and remembered. */
  lemma LoadIsRemembered(s: State, t: nat)
    requires Inv(s) && Enabled(s, CommitLoad(t, true)) && s.threads[t].caller.Admin?
    ensures var r' := Do(s, CommitLoad(t, true)).reg;
            && Has(r'.models, s.threads[t].name)
            && exists i :: 0 <= i < |r'.disk| && r'.disk[i] == Describe(s.reg.heap[s.threads[t].id])
                           && r'.disk[i].name == s.threads[t].name
  {
    var pc := s.threads[t];
    assert ThreadInv(s.reg, t, pc);
    CommitStep(s, t, true);
    CommitRemembers(s.reg, pc.name, pc.id);
  }

  lemma CommitRemembers(r: Reg, name: string, id: nat)
    requires id < |r.heap| && IdsKnown(r.models, r.heap) && r.heap[id].name == name
    ensures var r' := Commit(r, name, id, true, true);
            Has(r'.models, name) && exists i :: 0 <= i < |r'.disk| && r'.disk[i] == Describe(r.heap[id]) && r'.disk[i].name == name
  {
    var r' := Commit(r, name, id, true, true);
    PutFinds(r.models, name, id);
    CommitKeeps(r, name, id, true, true);
    PersistKeeps(r, name, id, true, true);
    var i := IndexOf(r'.models, name);
    assert r'.disk[i] == Describe(r'.heap[id]);
  }

  /** An admin unload whose write worked is forgotten, and every other model stays remembered. */
  lemma UnloadIsForgotten(s: State, t: nat, name: string, other: string)
    requires Inv(s) && Enabled(s, StartUnload(t, name, true))
    requires name !in s.reg.loading && Has(s.reg.models, name)
    ensures var r' := Do(s, StartUnload(t, name, true)).reg;
            && name !in Names(r'.disk) && !Has(r'.models, name)
            && (other != name ==> (Has(s.reg.models, other) <==> other in Names(r'.disk)))
  {
    PopForgets(s.reg, name, other);
  }

  lemma PopForgets(r: Reg, name: string, other: string)
    requires DictInv(r) && IdsKnown(r.models, r.heap) && Has(r.models, name)
    ensures var r' := Pop(r, name, true);
            && name !in Names(r'.disk) && !Has(r'.models, name)
            && (other != name ==> (Has(r.models, other) <==> other in Names(r'.disk)))
  {
    var r' := Pop(r, name, true);
    PopDict(r, name, true);
    DropForgets(r.models, name, other);
    NamesOfEntries(r'.models, r'.heap, name);
    NamesOfEntries(r'.models, r'.heap, other);
  }

  lemma DropForgets(d: seq<Slot>, name: string, other: string)
    requires forall i, j :: 0 <= i < j < |d| ==> d[i].name != d[j].name
    requires Has(d, name)
    ensures !Has(Drop(d, name), name)
    ensures other != name ==> (Has(d, other) <==> Has(Drop(d, name), other))
  {
    DropsTheName(d, name);
    if other != name { DropOthers(d, name, other); }
  }

  lemma DropsTheName(d: seq<Slot>, name: string)
    requires forall i, j :: 0 <= i < j < |d| ==> d[i].name != d[j].name
    requires Has(d, name)
    ensures !Has(Drop(d, name), name)
  {
    var k, d' := IndexOf(d, name), Drop(d, name);
    forall i | 0 <= i < |d'|
      ensures d'[i].name != name
    {
      assert d'[i] == d[if i < k then i else i + 1];
    }
  }

  /** Without one name, all others lead where they led. */
  lemma DropOthers(d: seq<Slot>, name: string, other: string)
    requires other != name && Has(d, name)
    ensures Get(Drop(d, name), other) == Get(d, other)
  {
    var d' := Drop(d, name);
    var i, j, k := IndexOf(d, name), IndexOf(d, other), IndexOf(d', other);
    assert forall n :: 0 <= n < |d'| ==> d'[n] == d[if n < i then n else n + 1];
    if j < |d| {
      assert j != i;
      assert d'[if j < i then j else j - 1] == d[j];
    }
  }

  lemma NamesOfEntries(d: seq<Slot>, h: seq<Served>, name: string)
    requires IdsKnown(d, h) && forall i :: 0 <= i < |d| ==> SlotOk(d[i], h)
    ensures name in Names(Entries(d, h)) <==> Has(d, name)
  {
    var names := Names(Entries(d, h));
    assert |names| == |d| && forall i :: 0 <= i < |d| ==> names[i] == d[i].name;
    if Has(d, name) { assert names[IndexOf(d, name)] == name; }
  }
}

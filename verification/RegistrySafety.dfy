/** Every step of the decision server keeps the invariant, and what the invariant gives. */
module RegistrySafety {
  import opened Wrappers
  import opened DecisionRegistry
  import opened RegistryProtocol

  // ------------------------------------------------------------------------------------------
  // Steps that leave the dictionary and the reservations alone
  // ------------------------------------------------------------------------------------------

  /** Only objects outside the dictionary change, and no object changes what the file says of it. */
  ghost predicate SameDict(r: Reg, r': Reg) {
    && r'.models == r.models && r'.loading == r.loading && r'.max == r.max
    && r'.disk == r.disk && r'.written == r.written && r'.settled == r.settled && (r'.ready ==> r'.settled)
    && |r.heap| <= |r'.heap|
    && forall id :: 0 <= id < |r.heap| ==>
         && Describe(r'.heap[id]) == Describe(r.heap[id])
         && (r.heap[id].stage == Live ==> r'.heap[id].stage == Live && r'.heap[id].loaded == r.heap[id].loaded)
  }

  ghost predicate RegInv(r: Reg) { DictInv(r) && ReservedInv(r) && CapacityInv(r) && DiskInv(r) }

  lemma SameDictInv(r: Reg, r': Reg)
    requires RegInv(r) && SameDict(r, r')
    ensures RegInv(r')
  {
    LoadedCountFrame(r.models, r.heap, r'.heap);
    assert Entries(r'.models, r'.heap) == Entries(r.models, r.heap);
  }

  /** A thread keeps its load, or its lack of one, while the reservations stay. */
  lemma OwnerStep(s: State, t: nat, r': Reg, pc: Pc)
    requires OwnerInv(s) && t < |s.threads| && r'.loading == s.reg.loading
    requires Loads(pc) == Loads(s.threads[t]) && (Loads(pc) ==> pc.name == s.threads[t].name)
    ensures OwnerInv(Goto(s.(reg := r'), t, pc))
  {
  }

  /** A thread keeps its lock, or its lack of one, while all locks stay. */
  lemma LockStep(s: State, t: nat, r': Reg, pc: Pc)
    requires LockInv(s) && t < |s.threads| && |s.reg.heap| <= |r'.heap|
    requires forall id :: 0 <= id < |s.reg.heap| ==> r'.heap[id].holder == s.reg.heap[id].holder
    requires forall id :: |s.reg.heap| <= id < |r'.heap| ==> r'.heap[id].holder.None?
    requires Holds(pc) == Holds(s.threads[t]) && (Holds(pc) ==> pc.id == s.threads[t].id)
    ensures LockInv(Goto(s.(reg := r'), t, pc))
  {
  }

  lemma ThreadsStep(s: State, t: nat, r': Reg, pc: Pc)
    requires ThreadsInv(s) && t < |s.threads|
    requires ThreadInv(r', t, pc)
    requires forall u :: 0 <= u < |s.threads| && u != t ==> ThreadInv(r', u, s.threads[u])
    ensures ThreadsInv(Goto(s.(reg := r'), t, pc))
  {
  }

  /** A thread moves on and nothing else changes, except that the server may become ready. */
  lemma MoveStep(s: State, t: nat, pc: Pc, ready: bool)
    requires Inv(s) && t < |s.threads|
    requires Loads(pc) == Loads(s.threads[t]) && (Loads(pc) ==> pc.name == s.threads[t].name)
    requires Holds(pc) == Holds(s.threads[t]) && (Holds(pc) ==> pc.id == s.threads[t].id)
    requires ThreadInv(s.reg, t, pc) && (ready ==> s.reg.settled)
    ensures Inv(Goto(s.(reg := s.reg.(ready := ready)), t, pc))
  {
    var r' := s.reg.(ready := ready);
    SameDictInv(s.reg, r');
    OwnerStep(s, t, r', pc);
    LockStep(s, t, r', pc);
    forall u | 0 <= u < |s.threads| && u != t
      ensures ThreadInv(r', u, s.threads[u])
    {
      assert ThreadInv(s.reg, u, s.threads[u]);
    }
    ThreadsStep(s, t, r', pc);
  }

  /** A thread takes the free lock of `id`, or gives back the one it holds. */
  lemma LockingStep(s: State, t: nat, id: nat, holder: Option<nat>, pc: Pc)
    requires Inv(s) && t < |s.threads| && id < |s.reg.heap|
    requires !Loads(pc) && !Loads(s.threads[t])
    requires
      || (holder == Some(t) && Free(s.reg, id) && !Holds(s.threads[t]) && Holds(pc) && pc.id == id)
      || (holder.None? && Holds(s.threads[t]) && s.threads[t].id == id && !Holds(pc))
    requires ThreadInv(SetLock(s.reg, id, holder), t, pc)
    ensures Inv(Goto(s.(reg := SetLock(s.reg, id, holder)), t, pc))
  {
    var r' := SetLock(s.reg, id, holder);
    SameDictInv(s.reg, r');
    OwnerStep(s, t, r', pc);
    LockMoves(s, t, id, holder, pc);
    forall u | 0 <= u < |s.threads| && u != t
      ensures ThreadInv(r', u, s.threads[u])
    {
      assert ThreadInv(s.reg, u, s.threads[u]);
    }
    ThreadsStep(s, t, r', pc);
  }

  lemma LockMoves(s: State, t: nat, id: nat, holder: Option<nat>, pc: Pc)
    requires LockInv(s) && t < |s.threads| && id < |s.reg.heap|
    requires
      || (holder == Some(t) && Free(s.reg, id) && !Holds(s.threads[t]) && Holds(pc) && pc.id == id)
      || (holder.None? && Holds(s.threads[t]) && s.threads[t].id == id && !Holds(pc))
    ensures LockInv(Goto(s.(reg := SetLock(s.reg, id, holder)), t, pc))
  {
  }

  /** An object outside the dictionary gains or loses its model. */
  lemma ModelStep(s: State, t: nat, id: nat, loaded: bool, pc: Pc)
    requires Inv(s) && t < |s.threads| && id < |s.reg.heap|
    requires Loads(pc) == Loads(s.threads[t]) && (Loads(pc) ==> pc.name == s.threads[t].name)
    requires Holds(pc) == Holds(s.threads[t]) && (Holds(pc) ==> pc.id == s.threads[t].id)
    requires s.reg.heap[id].stage == Fresh(t) || (s.reg.heap[id].stage == Gone && !loaded && Holds(pc) && pc.id == id)
    requires ThreadInv(SetLoaded(s.reg, id, loaded), t, pc)
    ensures Inv(Goto(s.(reg := SetLoaded(s.reg, id, loaded)), t, pc))
  {
    var r' := SetLoaded(s.reg, id, loaded);
    SameDictInv(s.reg, r');
    OwnerStep(s, t, r', pc);
    LockStep(s, t, r', pc);
    forall u | 0 <= u < |s.threads| && u != t
      ensures ThreadInv(r', u, s.threads[u])
    {
      assert ThreadInv(s.reg, u, s.threads[u]);
    }
    ThreadsStep(s, t, r', pc);
  }

  /** A load makes its `Served` object. */
  lemma MakeStepInv(s: State, t: nat)
    requires Inv(s) && Enabled(s, Probe(t, true))
    ensures Inv(Do(s, Probe(t, true)))
  {
    var pc := s.threads[t];
    var r' := Make(s.reg, pc.name, pc.path, pc.in4, pc.msl, t);
    var pc' := Making(Loading, pc.name, |s.reg.heap|, pc.caller);
    SameDictInv(s.reg, r');
    OwnerStep(s, t, r', pc');
    LockStep(s, t, r', pc');
    MadeThreads(s, t, r');
    ThreadsStep(s, t, r', pc');
  }

  /** The new object is its loader's, and all other threads are where they were. */
  lemma MadeThreads(s: State, t: nat, r': Reg)
    requires Inv(s) && Enabled(s, Probe(t, true))
    requires var pc := s.threads[t]; r' == Make(s.reg, pc.name, pc.path, pc.in4, pc.msl, t)
    ensures var pc := s.threads[t]; ThreadInv(r', t, Making(Loading, pc.name, |s.reg.heap|, pc.caller))
    ensures forall u :: 0 <= u < |s.threads| && u != t ==> ThreadInv(r', u, s.threads[u])
  {
    forall u | 0 <= u < |s.threads| && u != t
      ensures ThreadInv(r', u, s.threads[u])
    {
      assert ThreadInv(s.reg, u, s.threads[u]);
    }
    assert ThreadInv(s.reg, t, s.threads[t]);
  }

  // ------------------------------------------------------------------------------------------
  // The reservation
  // ------------------------------------------------------------------------------------------

  lemma ReserveRegInv(r: Reg, name: string, t: nat)
    requires RegInv(r) && Reserve(r, name, t).Some?
    ensures RegInv(Reserve(r, name, t).value)
  {
    var r' := Reserve(r, name, t).value;
    assert r'.loading.Keys == r.loading.Keys + {name};
  }

  lemma ReserveStepInv(s: State, t: nat, name: string, path: string, in4: bool, msl: int, caller: Caller)
    requires Inv(s) && t < |s.threads| && !Loads(s.threads[t]) && !Holds(s.threads[t])
    requires NameOk(name) && path != "" && MslOk(msl) && Reserve(s.reg, name, t).Some?
    requires caller.Boot? ==> t == 0 && !s.reg.settled
    ensures Inv(Goto(s.(reg := Reserve(s.reg, name, t).value), t, Reserving(Reserved, name, path, in4, msl, caller)))
  {
    var r' := Reserve(s.reg, name, t).value;
    var pc := Reserving(Reserved, name, path, in4, msl, caller);
    ReserveRegInv(s.reg, name, t);
    LockStep(s, t, r', pc);
    forall u | 0 <= u < |s.threads| && u != t
      ensures ThreadInv(r', u, s.threads[u])
    {
      assert ThreadInv(s.reg, u, s.threads[u]);
    }
    ThreadsStep(s, t, r', pc);
  }

  lemma DiscardRegInv(r: Reg, name: string)
    requires RegInv(r) && name in r.loading
    ensures RegInv(Discard(r, name))
    ensures |Discard(r, name).loading| == |r.loading| - 1
  {
    assert Discard(r, name).loading.Keys == r.loading.Keys - {name};
  }

  /** The owner of a reservation gives it up and stops loading. */
  lemma OwnerDiscard(s: State, t: nat, r': Reg, pc: Pc)
    requires OwnerInv(s) && t < |s.threads| && Loads(s.threads[t]) && !Loads(pc)
    requires r'.loading == s.reg.loading - {s.threads[t].name}
    ensures OwnerInv(Goto(s.(reg := r'), t, pc))
  {
  }

  lemma DiscardStepInv(s: State, t: nat, pc: Pc)
    requires Inv(s) && t < |s.threads| && Loads(s.threads[t]) && !Loads(pc) && !Holds(pc)
    requires ThreadInv(s.reg, t, pc)
    ensures Inv(Goto(s.(reg := Discard(s.reg, s.threads[t].name)), t, pc))
  {
    var r' := Discard(s.reg, s.threads[t].name);
    DiscardRegInv(s.reg, s.threads[t].name);
    OwnerDiscard(s, t, r', pc);
    LockStep(s, t, r', pc);
    forall u | 0 <= u < |s.threads| && u != t
      ensures ThreadInv(r', u, s.threads[u])
    {
      assert ThreadInv(s.reg, u, s.threads[u]);
    }
    ThreadsStep(s, t, r', pc);
  }

  // ------------------------------------------------------------------------------------------
  // The commit
  // ------------------------------------------------------------------------------------------

  /** The registry right after a commit, before it is saved. */
  function Committed(r: Reg, name: string, id: nat): Reg
    requires id < |r.heap| && IdsKnown(r.models, r.heap)
  {
    Commit(r, name, id, false, false)
  }

  lemma CommitDict(r: Reg, name: string, id: nat)
    requires DictInv(r) && IdsKnown(r.models, r.heap) && id < |r.heap|
    requires NameOk(name) && r.heap[id].stage.Fresh? && r.heap[id].name == name && r.heap[id].msl >= 0
    ensures DictInv(Committed(r, name, id)) && IdsKnown(Committed(r, name, id).models, Committed(r, name, id).heap)
  {
    var r' := Committed(r, name, id);
    var k := IndexOf(r.models, name);
    forall i | 0 <= i < |r'.models|
      ensures SlotOk(r'.models[i], r'.heap)
    {
      if i < |r.models| && i != k {
        assert r'.models[i] == r.models[i];
        assert r.models[i].name != name;
        if k < |r.models| {
          assert r.models[k].id != r.models[i].id;
        }
      }
    }
  }

  lemma PlacedCount(d: seq<Slot>, name: string, id: nat, h: seq<Served>, h': seq<Served>)
    requires |h'| == |h| && id < |h| && h[id].loaded
    requires forall k :: 0 <= k < |h| ==> h'[k].loaded == h[k].loaded
    requires Has(d, name) ==> !IsLoaded(h, d[IndexOf(d, name)].id)
    ensures LoadedCount(Put(d, name, id), h') == LoadedCount(d, h) + 1
  {
    LoadedCountPut(d, name, id, h);
    LoadedCountFrame(Put(d, name, id), h, h');
  }

  /** The new entry is loaded, the one it replaces was not, so the reservation turns into a loaded model. */
  lemma CommitCount(r: Reg, name: string, id: nat)
    requires RegInv(r) && id < |r.heap| && name in r.loading && r.heap[id].loaded
    ensures var r' := Committed(r, name, id);
            LoadedCount(r'.models, r'.heap) + |r'.loading| == LoadedCount(r.models, r.heap) + |r.loading|
  {
    ReservedIsNotLoaded(r, name);
    CommitKeeps(r, name, id, false, false);
    PlacedCount(r.models, name, id, r.heap, Committed(r, name, id).heap);
    DiscardRegInv(r, name);
  }

  lemma ReservedIsNotLoaded(r: Reg, name: string)
    requires ReservedInv(r) && IdsKnown(r.models, r.heap) && name in r.loading
    ensures Has(r.models, name) ==> !IsLoaded(r.heap, r.models[IndexOf(r.models, name)].id)
  {
  }

  lemma CommitReserved(r: Reg, name: string, id: nat)
    requires RegInv(r) && id < |r.heap|
    requires r.heap[id].stage.Fresh? && r.heap[id].name == name
    ensures ReservedInv(Committed(r, name, id))
  {
    var r' := Committed(r, name, id);
    forall i | 0 <= i < |r'.models| && r'.models[i].name in r'.loading
      ensures !IsLoaded(r'.heap, r'.models[i].id)
    {
      assert r'.models[i].name != name;
      assert i < |r.models| && r'.models[i] == r.models[i];
    }
  }

  lemma CommitRegInv(r: Reg, name: string, id: nat, persist: bool, wrote: bool)
    requires RegInv(r) && id < |r.heap| && name in r.loading && NameOk(name)
    requires r.heap[id].stage.Fresh? && r.heap[id].loaded && r.heap[id].name == name && r.heap[id].msl >= 0
    requires !persist ==> !r.settled
    ensures RegInv(Commit(r, name, id, persist, wrote))
  {
    CommitDict(r, name, id);
    CommitCount(r, name, id);
    CommitReserved(r, name, id);
    if persist { PersistedInv(Committed(r, name, id), wrote); }
  }

  lemma PersistedInv(r: Reg, wrote: bool)
    requires DictInv(r) && ReservedInv(r) && CapacityInv(r) && IdsKnown(r.models, r.heap) && (r.ready ==> r.settled)
    ensures RegInv(Persist(r, wrote))
  {
  }

  /** The state after a commit step. */
  lemma CommitStep(s: State, t: nat, wrote: bool)
    requires Enabled(s, CommitLoad(t, wrote)) && IdsKnown(s.reg.models, s.reg.heap) && s.threads[t].id < |s.reg.heap|
    ensures var pc := s.threads[t];
            Do(s, CommitLoad(t, wrote)) ==
              Goto(s.(reg := Commit(s.reg, pc.name, pc.id, pc.caller.Admin?, wrote)), t, AfterSuccess(pc.caller))
  {
  }

  lemma CommitStepInv(s: State, t: nat, wrote: bool)
    requires Inv(s) && Enabled(s, CommitLoad(t, wrote))
    ensures Inv(Do(s, CommitLoad(t, wrote)))
  {
    var pc := s.threads[t];
    assert ThreadInv(s.reg, t, pc);
    var r' := Commit(s.reg, pc.name, pc.id, pc.caller.Admin?, wrote);
    CommitRegInv(s.reg, pc.name, pc.id, pc.caller.Admin?, wrote);
    CommitKeeps(s.reg, pc.name, pc.id, pc.caller.Admin?, wrote);
    CommitThreads(s, t, r', AfterSuccess(pc.caller));
    CommitStep(s, t, wrote);
    Assemble(s, r', t, AfterSuccess(pc.caller));
  }

  lemma Assemble(s: State, r': Reg, t: nat, pc: Pc)
    requires t < |s.threads| && RegInv(r')
    requires var s' := Goto(s.(reg := r'), t, pc); OwnerInv(s') && LockInv(s') && ThreadsInv(s')
    ensures Inv(Goto(s.(reg := r'), t, pc))
  {
  }

  /** A commit moves its own object on and retires at most one; names, locks and models stay. */
  ghost predicate CommitFrame(r: Reg, r': Reg, name: string, id: nat) {
    && r'.settled == r.settled && r'.loading == r.loading - {name} && |r'.heap| == |r.heap|
    && forall k :: 0 <= k < |r.heap| ==>
         && Describe(r'.heap[k]) == Describe(r.heap[k]) && r'.heap[k].loaded == r.heap[k].loaded
         && r'.heap[k].holder == r.heap[k].holder
         && (k == id ==> r'.heap[k].stage == Live)
         && (|| k == id || r'.heap[k].stage == r.heap[k].stage
             || (r'.heap[k].stage == Gone && Has(r.models, name) && k == r.models[IndexOf(r.models, name)].id))
  }

  lemma CommitKeeps(r: Reg, name: string, id: nat, persist: bool, wrote: bool)
    requires id < |r.heap| && IdsKnown(r.models, r.heap)
    ensures CommitFrame(r, Commit(r, name, id, persist, wrote), name, id)
  {
  }

  lemma CommitThreads(s: State, t: nat, r': Reg, pc': Pc)
    requires Inv(s) && t < |s.threads| && s.threads[t].Making? && s.threads[t].making.Loaded?
    requires s.threads[t].id < |s.reg.heap| && pc' == AfterSuccess(s.threads[t].caller)
    requires CommitFrame(s.reg, r', s.threads[t].name, s.threads[t].id)
    ensures var s' := Goto(s.(reg := r'), t, pc'); OwnerInv(s') && LockInv(s') && ThreadsInv(s')
  {
    var pc := s.threads[t];
    assert ThreadInv(s.reg, t, pc);
    OwnerDiscard(s, t, r', pc');
    LockStep(s, t, r', pc');
    forall u | 0 <= u < |s.threads| && u != t
      ensures ThreadInv(r', u, s.threads[u])
    {
      assert ThreadInv(s.reg, u, s.threads[u]);
      CommitOthers(s.reg, r', pc, t, u, s.threads[u]);
    }
    ThreadsStep(s, t, r', pc');
  }

  /** A commit leaves what another thread knows. */
  lemma CommitOthers(r: Reg, r': Reg, pc: Pc, t: nat, u: nat, other: Pc)
    requires DictInv(r) && ThreadInv(r, t, pc) && pc.Making? && ThreadInv(r, u, other) && u != t
    requires CommitFrame(r, r', pc.name, pc.id)
    ensures ThreadInv(r', u, other)
  {
    if Has(r.models, pc.name) { assert SlotOk(r.models[IndexOf(r.models, pc.name)], r.heap); }
    KeptObjects(r, r', u, t, other);
  }

  /** What another thread knows survives a block that only moves objects from fresh or live onwards. */
  lemma KeptObjects(r: Reg, r': Reg, u: nat, t: nat, pc: Pc)
    requires ThreadInv(r, u, pc) && u != t && r'.settled == r.settled && |r.heap| <= |r'.heap|
    requires forall id :: 0 <= id < |r.heap| ==>
               && Describe(r'.heap[id]) == Describe(r.heap[id]) && r'.heap[id].loaded == r.heap[id].loaded
               && (r.heap[id].stage.Gone? ==> r'.heap[id].stage.Gone?)
               && (r.heap[id].stage.Live? ==> !r'.heap[id].stage.Fresh?)
               && (r.heap[id].stage == Fresh(u) ==> r'.heap[id].stage == Fresh(u))
    ensures ThreadInv(r', u, pc)
  {
  }

  // ------------------------------------------------------------------------------------------
  // The pop and the placeholder
  // ------------------------------------------------------------------------------------------

  lemma PopDict(r: Reg, name: string, wrote: bool)
    requires DictInv(r) && IdsKnown(r.models, r.heap) && Has(r.models, name)
    ensures DictInv(Pop(r, name, wrote)) && IdsKnown(Pop(r, name, wrote).models, Pop(r, name, wrote).heap)
  {
    var k := IndexOf(r.models, name);
    var r' := Pop(r, name, wrote);
    DropKeepsOrder(r.models, name);
    forall i | 0 <= i < |r'.models|
      ensures SlotOk(r'.models[i], r'.heap)
    {
      var j := if i < k then i else i + 1;
      assert r'.models[i] == r.models[j];
      OtherSlotOk(r, name, j);
    }
  }

  /** Dropping a name moves the later entries up by one. */
  lemma DropPlaces(d: seq<Slot>, name: string)
    requires Has(d, name)
    ensures var k, d' := IndexOf(d, name), Drop(d, name);
            |d'| == |d| - 1 && forall i :: 0 <= i < |d'| ==> d'[i] == d[if i < k then i else i + 1]
  {
    WithoutOne(d, IndexOf(d, name));
  }

  lemma WithoutOne(d: seq<Slot>, k: nat)
    requires k < |d|
    ensures var d' := d[..k] + d[k + 1..];
            |d'| == |d| - 1 && forall i :: 0 <= i < |d'| ==> d'[i] == d[if i < k then i else i + 1]
  {
  }

  lemma DropKeepsOrder(d: seq<Slot>, name: string)
    requires Has(d, name) && forall i, j :: 0 <= i < j < |d| ==> d[i].name != d[j].name
    ensures var k, d' := IndexOf(d, name), Drop(d, name);
            && |d'| == |d| - 1 && (forall i :: 0 <= i < |d'| ==> d'[i] == d[if i < k then i else i + 1])
            && (forall i, j :: 0 <= i < j < |d'| ==> d'[i].name != d'[j].name)
  {
    var k, d' := IndexOf(d, name), Drop(d, name);
    DropPlaces(d, name);
    forall i, j | 0 <= i < j < |d'|
      ensures d'[i].name != d'[j].name
    {
      var a, b := if i < k then i else i + 1, if j < k then j else j + 1;
      assert d'[i] == d[a] && d'[j] == d[b] && a < b;
    }
  }

  lemma OtherSlotOk(r: Reg, name: string, j: nat)
    requires DictInv(r) && IdsKnown(r.models, r.heap) && Has(r.models, name) && j < |r.models| && j != IndexOf(r.models, name)
    ensures SlotOk(r.models[j], Retire(r.models, r.heap, name))
  {
    var k := IndexOf(r.models, name);
    assert SlotOk(r.models[j], r.heap) && SlotOk(r.models[k], r.heap);
    assert r.models[j].name != r.models[k].name;
  }

  lemma PopCount(r: Reg, name: string, wrote: bool)
    requires DictInv(r) && CapacityInv(r) && ReservedInv(r) && IdsKnown(r.models, r.heap) && Has(r.models, name)
    ensures CapacityInv(Pop(r, name, wrote)) && ReservedInv(Pop(r, name, wrote))
  {
    var r' := Pop(r, name, wrote);
    LoadedCountDrop(r.models, name, r.heap);
    LoadedCountFrame(r'.models, r.heap, r'.heap);
    PopReserved(r, name, wrote);
  }

  lemma PopReserved(r: Reg, name: string, wrote: bool)
    requires ReservedInv(r) && IdsKnown(r.models, r.heap) && Has(r.models, name)
    ensures ReservedInv(Pop(r, name, wrote))
  {
    var k, r' := IndexOf(r.models, name), Pop(r, name, wrote);
    forall i | 0 <= i < |r'.models| && r'.models[i].name in r'.loading
      ensures !IsLoaded(r'.heap, r'.models[i].id)
    {
      assert r'.models[i] == r.models[if i < k then i else i + 1];
    }
  }

  lemma PopStepInv(s: State, t: nat, name: string, wrote: bool)
    requires Inv(s) && Enabled(s, StartUnload(t, name, wrote))
    requires name !in s.reg.loading && Has(s.reg.models, name)
    ensures Inv(Do(s, StartUnload(t, name, wrote)))
  {
    PopDict(s.reg, name, wrote);
    PopCount(s.reg, name, wrote);
    PopKeeps(s.reg, name, wrote);
    PopThreads(s, t, s.reg.models[IndexOf(s.reg.models, name)].id, Pop(s.reg, name, wrote));
  }

  /** A pop retires its object; names, locks and models stay. */
  ghost predicate PopFrame(r: Reg, r': Reg) {
    && r'.settled == r.settled && r'.loading == r.loading && |r'.heap| == |r.heap|
    && forall k :: 0 <= k < |r.heap| ==>
         && Describe(r'.heap[k]) == Describe(r.heap[k]) && r'.heap[k].loaded == r.heap[k].loaded
         && r'.heap[k].holder == r.heap[k].holder
         && (r'.heap[k].stage == r.heap[k].stage || (r.heap[k].stage == Live && r'.heap[k].stage == Gone))
  }

  lemma PopKeeps(r: Reg, name: string, wrote: bool)
    requires DictInv(r) && IdsKnown(r.models, r.heap) && Has(r.models, name)
    ensures PopFrame(r, Pop(r, name, wrote))
    ensures Pop(r, name, wrote).heap[r.models[IndexOf(r.models, name)].id].stage == Gone
  {
  }

  lemma PopThreads(s: State, t: nat, id: nat, r': Reg)
    requires Inv(s) && t < |s.threads| && s.threads[t].Idle?
    requires PopFrame(s.reg, r') && id < |r'.heap| && r'.heap[id].stage == Gone
    ensures var s' := Goto(s.(reg := r'), t, Unload(Popped, id)); OwnerInv(s') && LockInv(s') && ThreadsInv(s')
  {
    var pc' := Unload(Popped, id);
    OwnerStep(s, t, r', pc');
    LockStep(s, t, r', pc');
    forall u | 0 <= u < |s.threads| && u != t
      ensures ThreadInv(r', u, s.threads[u])
    {
      assert ThreadInv(s.reg, u, s.threads[u]);
      KeptObjects(s.reg, r', u, t, s.threads[u]);
    }
    ThreadsStep(s, t, r', pc');
  }

  lemma PlaceDict(r: Reg, e: FileEntry)
    requires DictInv(r) && IdsKnown(r.models, r.heap) && NameOk(e.name) && e.msl >= 0
    ensures DictInv(Place(r, e)) && IdsKnown(Place(r, e).models, Place(r, e).heap)
  {
    var r' := Place(r, e);
    forall i | 0 <= i < |r'.models|
      ensures SlotOk(r'.models[i], r'.heap)
    {
      if i < |r.models| {
        assert r'.models[i] == r.models[i] && SlotOk(r.models[i], r.heap);
      }
    }
    HasIffMember(r.models, e.name);
    forall i, j | 0 <= i < j < |r'.models|
      ensures r'.models[i].name != r'.models[j].name
    {
      assert r'.models[i] == r.models[i];
      if j < |r.models| { assert r'.models[j] == r.models[j]; }
    }
  }

  lemma PlaceCount(r: Reg, e: FileEntry)
    requires CapacityInv(r) && ReservedInv(r) && IdsKnown(r.models, r.heap)
    ensures CapacityInv(Place(r, e)) && ReservedInv(Place(r, e))
  {
    var r' := Place(r, e);
    LoadedCountFrame(r.models, r.heap, r'.heap);
    if !Has(r.models, e.name) {
      LoadedCountOne(Slot(e.name, |r.heap|), r'.heap);
      LoadedCountAppend(r.models, [Slot(e.name, |r.heap|)], r'.heap);
    }
  }

  lemma PlaceStepInv(s: State, t: nat)
    requires Inv(s) && Enabled(s, BootKeep(t))
    ensures Inv(Do(s, BootKeep(t)))
  {
    var pc := s.threads[t];
    var pc' := BootNext(pc.todo, pc.seen);
    assert ThreadInv(s.reg, t, pc);
    if pc.entry.Raw? && NameOk(pc.entry.name) {
      var e := Placeholder(pc.entry);
      PlaceDict(s.reg, e);
      PlaceCount(s.reg, e);
      PlaceThreads(s, t, Place(s.reg, e), e, pc');
    } else {
      MoveStep(s, t, pc', s.reg.ready);
    }
  }

  lemma PlaceThreads(s: State, t: nat, r': Reg, e: FileEntry, pc': Pc)
    requires Inv(s) && t < |s.threads| && s.threads[t].BootFailed? && pc'.BootNext? && r' == Place(s.reg, e)
    ensures var s' := Goto(s.(reg := r'), t, pc'); OwnerInv(s') && LockInv(s') && ThreadsInv(s')
  {
    OwnerStep(s, t, r', pc');
    LockStep(s, t, r', pc');
    assert ThreadInv(s.reg, t, s.threads[t]);
    forall u | 0 <= u < |s.threads| && u != t
      ensures ThreadInv(r', u, s.threads[u])
    {
      KeptObjects(s.reg, r', u, t, s.threads[u]);
    }
    ThreadsStep(s, t, r', pc');
  }

  lemma SaveStepInv(s: State, t: nat, wrote: bool)
    requires Inv(s) && Enabled(s, BootSave(t, wrote))
    ensures Inv(Do(s, BootSave(t, wrote)))
  {
    var r' := Persist(s.reg.(settled := true), wrote);
    OwnerStep(s, t, r', BootSaved);
    LockStep(s, t, r', BootSaved);
    assert ThreadInv(s.reg, t, s.threads[t]);
    forall u | 0 <= u < |s.threads| && u != t
      ensures ThreadInv(r', u, s.threads[u])
    {
      assert ThreadInv(s.reg, u, s.threads[u]);
    }
    ThreadsStep(s, t, r', BootSaved);
  }

  // ------------------------------------------------------------------------------------------
  // Every step
  // ------------------------------------------------------------------------------------------

  lemma EnterLoadInv(s: State, t: nat, name: string, target: Option<string>, in4: bool, msl: int, caller: Caller)
    requires Inv(s) && t < |s.threads| && !Loads(s.threads[t]) && !Holds(s.threads[t])
    requires caller.Boot? ==> t == 0 && !s.reg.settled
    requires target.Some? ==> target.value != ""
    ensures Inv(EnterLoad(s, t, name, target, in4, msl, caller))
  {
    if !NameOk(name) || !MslOk(msl) || target.None? || Reserve(s.reg, name, t).None? {
      MoveStep(s, t, AfterFailure(caller), s.reg.ready);
    } else {
      ReserveStepInv(s, t, name, target.value, in4, msl, caller);
    }
  }

  lemma ProbeInv(s: State, t: nat, enough: bool)
    requires Inv(s) && Enabled(s, Probe(t, enough))
    ensures Inv(Do(s, Probe(t, enough)))
  {
    assert ThreadInv(s.reg, t, s.threads[t]);
    if enough { MakeStepInv(s, t); } else { MoveStep(s, t, s.threads[t].(reserving := Refused), s.reg.ready); }
  }

  lemma LoaderInv(s: State, t: nat, ok: bool)
    requires Inv(s) && Enabled(s, LoaderReturns(t, ok))
    ensures Inv(Do(s, LoaderReturns(t, ok)))
  {
    var pc := s.threads[t];
    assert ThreadInv(s.reg, t, pc);
    if ok { ModelStep(s, t, pc.id, true, pc.(making := Loaded)); } else { MoveStep(s, t, pc.(making := Broken), s.reg.ready); }
  }

  lemma LoadInv(s: State, a: Action)
    requires Inv(s) && Enabled(s, a)
    requires a.StartLoad? || a.Probe? || a.LoaderReturns? || a.GiveUp? || a.CommitLoad?
    ensures Inv(Do(s, a))
  {
    var t := a.t;
    var pc := s.threads[t];
    assert ThreadInv(s.reg, t, pc);
    match a {
      case StartLoad(_, name, in4, msl, target) => EnterLoadInv(s, t, name, target, in4, msl, Admin);
      case Probe(_, enough) => ProbeInv(s, t, enough);
      case LoaderReturns(_, ok) => LoaderInv(s, t, ok);
      case GiveUp(_) => DiscardStepInv(s, t, AfterFailure(pc.caller));
      case CommitLoad(_, wrote) => CommitStepInv(s, t, wrote);
    }
  }

  lemma UnloadInv(s: State, a: Action)
    requires Inv(s) && Enabled(s, a)
    requires a.StartUnload? || a.LockForUnload? || a.DropModel? || a.FinishUnload?
    ensures Inv(Do(s, a))
  {
    var t := a.t;
    var pc := s.threads[t];
    assert ThreadInv(s.reg, t, pc);
    match a {
      case StartUnload(_, name, wrote) =>
        if name !in s.reg.loading && Has(s.reg.models, name) { PopStepInv(s, t, name, wrote); }
      case LockForUnload(_) => LockingStep(s, t, pc.id, Some(t), pc.(unloading := Clearing));
      case DropModel(_) => ModelStep(s, t, pc.id, false, pc.(unloading := Cleared));
      case FinishUnload(_) => LockingStep(s, t, pc.id, None, Idle);
    }
  }

  lemma RunMoveInv(s: State, a: Action)
    requires Inv(s) && Enabled(s, a)
    requires a.Look? || a.TimeOut? || a.Recheck? || a.PredictorReturns?
    ensures Inv(Do(s, a))
  {
    var pc := s.threads[a.t];
    assert ThreadInv(s.reg, a.t, pc);
    match a {
      case Look(_) => MoveStep(s, a.t, if IsLoaded(s.reg.heap, pc.id) then pc.(running := Waiting) else Idle, s.reg.ready);
      case TimeOut(_) => MoveStep(s, a.t, Idle, s.reg.ready);
      case Recheck(_) =>
        MoveStep(s, a.t, pc.(running := if IsLoaded(s.reg.heap, pc.id) then Predicting else Leaving), s.reg.ready);
      case PredictorReturns(_) => MoveStep(s, a.t, pc.(running := Leaving), s.reg.ready);
    }
  }

  lemma RunLockInv(s: State, a: Action)
    requires Inv(s) && Enabled(s, a)
    requires a.LockForRun? || a.Release?
    ensures Inv(Do(s, a))
  {
    var pc := s.threads[a.t];
    assert ThreadInv(s.reg, a.t, pc);
    if a.Release? {
      LockingStep(s, a.t, pc.id, None, Idle);
    } else {
      LockingStep(s, a.t, pc.id, Some(a.t), pc.(running := Locked));
    }
  }

  lemma FetchInv(s: State, t: nat, name: string)
    requires Inv(s) && Enabled(s, Fetch(t, name))
    ensures Inv(Do(s, Fetch(t, name)))
  {
    if Has(s.reg.models, name) {
      MoveStep(s, t, Run(Fetched, s.reg.models[IndexOf(s.reg.models, name)].id), s.reg.ready);
    }
  }

  lemma BootInv(s: State, a: Action)
    requires Inv(s) && Enabled(s, a)
    requires a.BootTry? || a.BootKeep? || a.BootSave? || a.BootReady?
    ensures Inv(Do(s, a))
  {
    var t := a.t;
    var pc := s.threads[t];
    assert ThreadInv(s.reg, t, pc);
    match a {
      case BootTry(_, target) =>
        var e := pc.todo[0];
        if e.Junk? || e.name in pc.seen {
          MoveStep(s, t, BootNext(pc.todo[1..], pc.seen), s.reg.ready);
        } else {
          var resolved := if e.path.PathText? && e.path.text != "" then target else None;
          EnterLoadInv(s, t, e.name, resolved, e.in4, ReadMsl(e.msl), Boot(e, pc.todo[1..], pc.seen + {e.name}));
        }
      case BootKeep(_) => PlaceStepInv(s, t);
      case BootSave(_, wrote) => SaveStepInv(s, t, wrote);
      case BootReady(_) => MoveStep(s, t, Stopped, true);
    }
  }

  lemma StepInv(s: State, a: Action)
    requires Inv(s) && Enabled(s, a)
    ensures Inv(Do(s, a))
  {
    match a {
      case StartLoad(_, _, _, _, _) => LoadInv(s, a);
      case Probe(_, _) => LoadInv(s, a);
      case LoaderReturns(_, _) => LoadInv(s, a);
      case GiveUp(_) => LoadInv(s, a);
      case CommitLoad(_, _) => LoadInv(s, a);
      case StartUnload(_, _, _) => UnloadInv(s, a);
      case LockForUnload(_) => UnloadInv(s, a);
      case DropModel(_) => UnloadInv(s, a);
      case FinishUnload(_) => UnloadInv(s, a);
      case BootTry(_, _) => BootInv(s, a);
      case BootKeep(_) => BootInv(s, a);
      case BootSave(_, _) => BootInv(s, a);
      case BootReady(_) => BootInv(s, a);
      case Fetch(t, name) => FetchInv(s, t, name);
      case LockForRun(_) => RunLockInv(s, a);
      case Release(_) => RunLockInv(s, a);
      case _ => RunMoveInv(s, a);
    }
  }
}

/**
 * What the decision server does for its callers: a served model answers, a valid load is served, an unload takes its
 * model away, and every refusal has one of the reasons the operations name.
 */
module RegistryService {
  import opened Wrappers
  import opened DecisionRegistry
  import opened RegistryProtocol
  import opened RegistrySafety
  import opened RegistryTheorems

  // ------------------------------------------------------------------------------------------
  // Short runs
  // ------------------------------------------------------------------------------------------

  /** The action can be taken in `s` and leads to `s'`. */
  predicate Leads(s: State, a: Action, s': State) {
    IdsKnown(s.reg.models, s.reg.heap) && Enabled(s, a) && Do(s, a) == s'
  }

  lemma RunFirst(s: State, run: seq<Action>, s': State)
    requires run != [] && Leads(s, run[0], s') && Possible(s', run[1..])
    ensures Possible(s, run) && After(s, run) == After(s', run[1..])
  {
  }

  lemma RunOne(s: State, a: Action, s1: State)
    requires Leads(s, a, s1)
    ensures Possible(s, [a]) && After(s, [a]) == s1
  {
    assert [a][1..] == [];
  }

  lemma RunTwo(s: State, a: Action, s1: State, b: Action, s2: State)
    requires Leads(s, a, s1) && Leads(s1, b, s2)
    ensures Possible(s, [a, b]) && After(s, [a, b]) == s2
  {
    RunOne(s1, b, s2);
    assert [a, b][1..] == [b];
    RunFirst(s, [a, b], s1);
  }

  lemma RunThree(s: State, a: Action, s1: State, b: Action, s2: State, c: Action, s3: State)
    requires Leads(s, a, s1) && Leads(s1, b, s2) && Leads(s2, c, s3)
    ensures Possible(s, [a, b, c]) && After(s, [a, b, c]) == s3
  {
    RunTwo(s1, b, s2, c, s3);
    assert [a, b, c][1..] == [b, c];
    RunFirst(s, [a, b, c], s1);
  }

  lemma {:induction false} RunThen(s: State, run: seq<Action>, a: Action, s': State)
    requires Possible(s, run) && Leads(After(s, run), a, s')
    ensures Possible(s, run + [a]) && After(s, run + [a]) == s'
    decreases |run|
  {
    if run == [] {
      assert [] + [a] == [a] && [a][1..] == [];
    } else {
      RunThen(Do(s, run[0]), run[1..], a, s');
      assert (run + [a])[1..] == run[1..] + [a];
    }
  }

  lemma RunTwoMore(s: State, run: seq<Action>, a: Action, s1: State, b: Action, s2: State)
    requires Possible(s, run) && Leads(After(s, run), a, s1) && Leads(s1, b, s2)
    ensures Possible(s, run + [a, b]) && After(s, run + [a, b]) == s2
  {
    RunThen(s, run, a, s1);
    RunThen(s, run + [a], b, s2);
    assert run + [a] + [b] == run + [a, b];
  }

  // ------------------------------------------------------------------------------------------
  // Requests
  // ------------------------------------------------------------------------------------------

  /** `name` leads to a loaded object whose lock nobody holds. */
  predicate Serves(r: Reg, name: string, id: nat) {
    Get(r.models, name) == Some(id) && IsLoaded(r.heap, id) && r.heap[id].holder.None?
  }

  function RequestRun(t: nat, name: string): seq<Action> {
    [Fetch(t, name), Look(t), LockForRun(t), Recheck(t)]
  }

  lemma FetchLeads(s: State, t: nat, name: string, id: nat)
    requires IdsKnown(s.reg.models, s.reg.heap) && t < |s.threads| && s.threads[t].Idle? && Get(s.reg.models, name) == Some(id)
    ensures Leads(s, Fetch(t, name), Goto(s, t, Run(Fetched, id)))
  {
  }

  lemma LookLeads(s: State, t: nat, id: nat)
    requires IdsKnown(s.reg.models, s.reg.heap) && t < |s.threads| && s.threads[t] == Run(Fetched, id) && IsLoaded(s.reg.heap, id)
    ensures Leads(s, Look(t), Goto(s, t, Run(Waiting, id)))
  {
  }

  lemma LockLeads(s: State, t: nat, id: nat)
    requires IdsKnown(s.reg.models, s.reg.heap) && t < |s.threads| && s.threads[t] == Run(Waiting, id) && Free(s.reg, id)
    ensures Leads(s, LockForRun(t), Goto(s.(reg := SetLock(s.reg, id, Some(t))), t, Run(Locked, id)))
  {
  }

  lemma RecheckLeads(s: State, t: nat, id: nat)
    requires IdsKnown(s.reg.models, s.reg.heap) && t < |s.threads| && s.threads[t] == Run(Locked, id) && IsLoaded(s.reg.heap, id)
    ensures Leads(s, Recheck(t), Goto(s, t, Run(Predicting, id)))
  {
  }

  lemma GotoTwice(s: State, t: nat, pc: Pc, pc': Pc)
    ensures Goto(Goto(s, t, pc), t, pc') == Goto(s, t, pc')
  {
    if t < |s.threads| {
      assert s.threads[t := pc][t := pc'] == s.threads[t := pc'];
    }
  }

  /** The places of a request up to its prediction. */
  function Placed(s: State, t: nat, id: nat, step: RunStep): State {
    if step.Fetched? || step.Waiting? then Goto(s, t, Run(step, id))
    else Goto(s.(reg := SetLock(s.reg, id, Some(t))), t, Run(step, id))
  }

  lemma RequestEnters(s: State, t: nat, name: string, id: nat)
    requires Inv(s) && t < |s.threads| && s.threads[t].Idle? && Serves(s.reg, name, id)
    ensures Leads(s, Fetch(t, name), Placed(s, t, id, Fetched))
    ensures Leads(Placed(s, t, id, Fetched), Look(t), Placed(s, t, id, Waiting))
  {
    FetchLeads(s, t, name, id);
    LookLeads(Placed(s, t, id, Fetched), t, id);
    GotoTwice(s, t, Run(Fetched, id), Run(Waiting, id));
  }

  lemma RequestLocks(s: State, t: nat, name: string, id: nat)
    requires Inv(s) && t < |s.threads| && s.threads[t].Idle? && Serves(s.reg, name, id)
    ensures Leads(Placed(s, t, id, Waiting), LockForRun(t), Placed(s, t, id, Locked))
    ensures Leads(Placed(s, t, id, Locked), Recheck(t), Placed(s, t, id, Predicting))
  {
    var s2, s3 := Placed(s, t, id, Waiting), Placed(s, t, id, Locked);
    LockLeads(s2, t, id);
    GotoTwice(s.(reg := s3.reg), t, Run(Waiting, id), Run(Locked, id));
    assert IdsKnown(s3.reg.models, s3.reg.heap) && IsLoaded(s3.reg.heap, id);
    RecheckLeads(s3, t, id);
    GotoTwice(s.(reg := s3.reg), t, Run(Locked, id), Run(Predicting, id));
  }

  /** A request for a served model whose lock is free is answered: the predictor runs on the object of that name. */
  lemma ServedIsPredicted(s: State, t: nat, name: string, id: nat)
    requires Inv(s) && t < |s.threads| && s.threads[t].Idle? && Serves(s.reg, name, id)
    ensures var run := RequestRun(t, name);
            && Possible(s, run) && PredictsOn(After(s, run), t, id)
            && After(s, run) == Goto(s.(reg := SetLock(s.reg, id, Some(t))), t, Run(Predicting, id))
  {
    RequestEnters(s, t, name, id);
    RequestLocks(s, t, name, id);
    var s1, s2, s3, s4 := Placed(s, t, id, Fetched), Placed(s, t, id, Waiting), Placed(s, t, id, Locked), Placed(s, t, id, Predicting);
    RunThree(s1, Look(t), s2, LockForRun(t), s3, Recheck(t), s4);
    assert RequestRun(t, name)[1..] == [Look(t), LockForRun(t), Recheck(t)];
    RunFirst(s, RequestRun(t, name), s1);
  }

  lemma AnswerLeads(s: State, t: nat, id: nat)
    requires IdsKnown(s.reg.models, s.reg.heap) && t < |s.threads| && s.threads[t] == Run(Predicting, id) && id < |s.reg.heap|
    ensures Leads(s, PredictorReturns(t), Goto(s, t, Run(Leaving, id)))
  {
  }

  lemma ReleaseLeads(s: State, t: nat, id: nat)
    requires IdsKnown(s.reg.models, s.reg.heap) && t < |s.threads| && s.threads[t] == Run(Leaving, id) && id < |s.reg.heap|
    ensures Leads(s, Release(t), Goto(s.(reg := SetLock(s.reg, id, None)), t, Idle))
  {
  }

  lemma LockGivenBack(s: State, t: nat, id: nat)
    requires t < |s.threads| && s.threads[t] == Idle && Free(s.reg, id)
    ensures var s' := Placed(s, t, id, Leaving);
            Goto(s'.(reg := SetLock(s'.reg, id, None)), t, Idle) == s
  {
    assert SetLock(SetLock(s.reg, id, Some(t)), id, None).heap == s.reg.heap;
    assert s.threads[t := Run(Leaving, id)][t := Idle] == s.threads;
  }

  lemma RequestEnds(s: State, t: nat, id: nat)
    requires Inv(s) && t < |s.threads| && s.threads[t].Idle? && Free(s.reg, id)
    ensures Leads(Placed(s, t, id, Predicting), PredictorReturns(t), Placed(s, t, id, Leaving))
    ensures Leads(Placed(s, t, id, Leaving), Release(t), s)
  {
    var s4, s5 := Placed(s, t, id, Predicting), Placed(s, t, id, Leaving);
    assert IdsKnown(s4.reg.models, s4.reg.heap);
    AnswerLeads(s4, t, id);
    GotoTwice(s.(reg := s4.reg), t, Run(Predicting, id), Run(Leaving, id));
    ReleaseLeads(s5, t, id);
    LockGivenBack(s, t, id);
  }

  /** Once it is answered and has let go of the lock, the server is as it was before. */
  lemma RequestLeavesNoTrace(s: State, t: nat, name: string, id: nat)
    requires Inv(s) && t < |s.threads| && s.threads[t].Idle? && Serves(s.reg, name, id)
    ensures var run := RequestRun(t, name) + [PredictorReturns(t), Release(t)];
            Possible(s, run) && After(s, run) == s
  {
    ServedIsPredicted(s, t, name, id);
    RequestEnds(s, t, id);
    var s5 := Placed(s, t, id, Leaving);
    RunTwoMore(s, RequestRun(t, name), PredictorReturns(t), s5, Release(t), s);
  }

  /** A request for a name that leads to no loaded model is over at once, without waiting for any lock. */
  lemma UnservedIsRefused(s: State, t: nat, name: string)
    requires Inv(s) && t < |s.threads| && s.threads[t].Idle?
    requires forall i :: 0 <= i < |s.reg.models| && s.reg.models[i].name == name ==> !IsLoaded(s.reg.heap, s.reg.models[i].id)
    ensures Enabled(s, Fetch(t, name))
    ensures var s' := Do(s, Fetch(t, name));
            s' == s || (Inv(s') && Enabled(s', Look(t)) && Do(s', Look(t)) == s)
  {
    if Has(s.reg.models, name) {
      var id := s.reg.models[IndexOf(s.reg.models, name)].id;
      FetchLeads(s, t, name, id);
      StepInv(s, Fetch(t, name));
      LookRefuses(Do(s, Fetch(t, name)), t, id);
      GotoTwice(s, t, Run(Fetched, id), Idle);
      assert s.threads[t := Idle] == s.threads;
    }
  }

  lemma LookRefuses(s: State, t: nat, id: nat)
    requires IdsKnown(s.reg.models, s.reg.heap) && t < |s.threads| && s.threads[t] == Run(Fetched, id) && !IsLoaded(s.reg.heap, id)
    ensures Leads(s, Look(t), Goto(s, t, Idle))
  {
  }

  /** The request of thread `t` has fetched object `id` and is not past its recheck yet. */
  predicate InLine(s: State, t: nat, id: nat) {
    && t < |s.threads| && s.threads[t].Run? && s.threads[t].id == id
    && (s.threads[t].running.Fetched? || s.threads[t].running.Waiting? || s.threads[t].running.Locked?)
  }

  /** The request leaves the line by a step of its own: to predict, by giving up on the lock, or for want of a model. */
  predicate LeavesRight(s: State, a: Action, t: nat, id: nat)
    requires Enabled(s, a) && IdsKnown(s.reg.models, s.reg.heap)
  {
    && a.t == t
    && (PredictsOn(Do(s, a), t, id) || a == TimeOut(t)
        || ((a == Look(t) || a == Recheck(t)) && !IsLoaded(s.reg.heap, id)))
  }

  /**
   * Up to there it stays in line, past its look only with a model, and neither its recheck nor its timeout leaves it
   * there.
   */
  ghost predicate EndsRight(s: State, run: seq<Action>, t: nat, id: nat)
    requires Possible(s, run)
    decreases |run|
  {
    run != [] ==>
      if InLine(Do(s, run[0]), t, id)
      then
        && (run[0] == Look(t) ==> IsLoaded(s.reg.heap, id)) && run[0] != Recheck(t) && run[0] != TimeOut(t)
        && EndsRight(Do(s, run[0]), run[1..], t, id)
      else LeavesRight(s, run[0], t, id)
  }

  lemma InLineStep(s: State, a: Action, t: nat, id: nat)
    requires IdsKnown(s.reg.models, s.reg.heap) && Enabled(s, a) && InLine(s, t, id)
    ensures if InLine(Do(s, a), t, id)
            then (a == Look(t) ==> IsLoaded(s.reg.heap, id)) && a != Recheck(t) && a != TimeOut(t)
            else LeavesRight(s, a, t, id)
  {
  }

  /** However the other threads interleave, a fetched request goes without an answer only for one of these reasons. */
  lemma {:induction false} RequestEndsRight(s: State, run: seq<Action>, t: nat, id: nat)
    requires Possible(s, run) && InLine(s, t, id)
    ensures EndsRight(s, run, t, id)
    decreases |run|
  {
    if run != [] {
      InLineStep(s, run[0], t, id);
      if InLine(Do(s, run[0]), t, id) {
        RequestEndsRight(Do(s, run[0]), run[1..], t, id);
      }
    }
  }

  // ------------------------------------------------------------------------------------------
  // Loads
  // ------------------------------------------------------------------------------------------

  /** Nothing is in the way of a load of `name`. */
  ghost predicate HasRoomFor(r: Reg, name: string) {
    && name !in r.loading
    && (forall i :: 0 <= i < |r.models| && r.models[i].name == name ==> !IsLoaded(r.heap, r.models[i].id))
    && LoadedCount(r.models, r.heap) + |r.loading| < r.max
  }

  lemma RoomIff(r: Reg, name: string)
    requires DictInv(r)
    ensures Refuses(r, name) <==> !HasRoomFor(r, name)
  {
    var k := IndexOf(r.models, name);
    if k < |r.models| {
      forall i | 0 <= i < |r.models| && r.models[i].name == name
        ensures i == k
      {
        assert r.models[k].name == name;
      }
    }
  }

  /** A load gets its reservation exactly for a valid request there is room for; otherwise nothing happens. */
  lemma LoadReservesIff(s: State, a: Action)
    requires Inv(s) && a.StartLoad? && Enabled(s, a)
    ensures var s' := Do(s, a);
            if NameOk(a.name) && 256 <= a.msl <= 65536 && a.target.Some? && HasRoomFor(s.reg, a.name)
            then s' == Goto(s.(reg := s.reg.(loading := s.reg.loading[a.name := a.t])), a.t,
                            Reserving(Reserved, a.name, a.target.value, a.in4, a.msl, Admin))
            else s' == s
  {
    RoomIff(s.reg, a.name);
    assert s.threads[a.t := Idle] == s.threads;
  }

  /** A name is 1 to 64 letters, digits, dots, underscores and hyphens; Python's `$` lets one line feed follow. */
  lemma NameOkIff(name: string)
    ensures NameOk(name) <==> IsName(name) || (|name| > 0 && name[|name| - 1] == '\n' && IsName(name[..|name| - 1]))
  {
    if |name| > 0 && name[|name| - 1] == '\n' {
      assert '\n' in name;
      assert !IsName(name);
      var core := name[..|name| - 1];
      AllNameChars(core);
      assert NameOk(name) <==> 1 <= |core| <= 64 && forall i :: 0 <= i < |core| ==> NameChar(core[i]);
    } else {
      AllNameChars(name);
    }
  }

  lemma AllNameChars(s: string)
    ensures (1 <= |s| <= 64 && forall i :: 0 <= i < |s| ==> NameChar(s[i])) <==> IsName(s)
  {
    if IsName(s) {
      forall i | 0 <= i < |s|
        ensures NameChar(s[i])
      {
        assert s[i] in s;
      }
    }
  }

  predicate IsName(s: string) {
    1 <= |s| <= 64 && forall c: char :: c in s ==>
      'a' <= c <= 'z' || 'A' <= c <= 'Z' || '0' <= c <= '9' || c == '.' || c == '_' || c == '-'
  }

  /** The thread has reserved the name of its load and nothing else has happened to it. */
  predicate HasReserved(s: State, t: nat, name: string, path: string, in4: bool, msl: int, caller: Caller) {
    t < |s.threads| && s.threads[t] == Reserving(Reserved, name, path, in4, msl, caller)
  }

  function LoadRun(t: nat, wrote: bool): seq<Action> { [Probe(t, true), LoaderReturns(t, true), CommitLoad(t, wrote)] }

  /** The state in which a load has its model and only its commit is left. */
  function WithModel(s: State, t: nat, name: string, path: string, in4: bool, msl: int, caller: Caller): State {
    Goto(s.(reg := s.reg.(heap := s.reg.heap + [Served(name, path, in4, msl, true, None, Fresh(t))])), t,
         Making(Loaded, name, |s.reg.heap|, caller))
  }

  lemma LoaderRuns(s: State, t: nat, name: string, path: string, in4: bool, msl: int, caller: Caller)
    requires Inv(s) && HasReserved(s, t, name, path, in4, msl, caller)
    ensures var run := [Probe(t, true), LoaderReturns(t, true)];
            && Possible(s, run) && After(s, run) == WithModel(s, t, name, path, in4, msl, caller)
            && Inv(After(s, run))
  {
    var s1, s2 := Probed(s, t), WithModel(s, t, name, path, in4, msl, caller);
    ProbeLeads(s, t);
    LoaderLeads(s1, t);
    LoaderFills(s, t, name, path, in4, msl, caller);
    RunTwo(s, Probe(t, true), s1, LoaderReturns(t, true), s2);
    RunKeepsInv(s, [Probe(t, true), LoaderReturns(t, true)]);
  }

  /** The state after a probe that found enough memory. */
  function Probed(s: State, t: nat): State
    requires t < |s.threads| && s.threads[t].Reserving?
  {
    var pc := s.threads[t];
    Goto(s.(reg := Make(s.reg, pc.name, pc.path, pc.in4, pc.msl, t)), t, Making(Loading, pc.name, |s.reg.heap|, pc.caller))
  }

  lemma ProbeLeads(s: State, t: nat)
    requires IdsKnown(s.reg.models, s.reg.heap) && t < |s.threads| && s.threads[t].Reserving? && s.threads[t].reserving.Reserved?
    ensures Leads(s, Probe(t, true), Probed(s, t)) && IdsKnown(Probed(s, t).reg.models, Probed(s, t).reg.heap)
  {
  }

  lemma LoaderLeads(s: State, t: nat)
    requires IdsKnown(s.reg.models, s.reg.heap) && t < |s.threads| && s.threads[t].Making? && s.threads[t].making.Loading?
    ensures var pc := s.threads[t];
            Leads(s, LoaderReturns(t, true), Goto(s.(reg := SetLoaded(s.reg, pc.id, true)), t, pc.(making := Loaded)))
    ensures Leads(s, LoaderReturns(t, false), Goto(s, t, s.threads[t].(making := Broken)))
  {
  }

  lemma LoaderFills(s: State, t: nat, name: string, path: string, in4: bool, msl: int, caller: Caller)
    requires HasReserved(s, t, name, path, in4, msl, caller)
    ensures var s1 := Probed(s, t);
            Goto(s1.(reg := SetLoaded(s1.reg, |s.reg.heap|, true)), t, Making(Loaded, name, |s.reg.heap|, caller))
            == WithModel(s, t, name, path, in4, msl, caller)
  {
    var s1 := Probed(s, t);
    assert SetLoaded(s1.reg, |s.reg.heap|, true).heap == s.reg.heap + [Served(name, path, in4, msl, true, None, Fresh(t))];
    GotoTwice(s.(reg := SetLoaded(s1.reg, |s.reg.heap|, true)), t, s1.threads[t], Making(Loaded, name, |s.reg.heap|, caller));
  }

  lemma GiveUpLeads(s: State, t: nat)
    requires IdsKnown(s.reg.models, s.reg.heap) && Enabled(s, GiveUp(t))
    ensures var pc := s.threads[t];
            Leads(s, GiveUp(t), Goto(s.(reg := Discard(s.reg, pc.name)), t, AfterFailure(pc.caller)))
  {
  }

  /** The name leads to a loaded object with that path and those settings. */
  predicate ServesAs(r: Reg, name: string, path: string, in4: bool, msl: int) {
    var found := Get(r.models, name);
    found.Some? && found.value < |r.heap| && r.heap[found.value] == Served(name, path, in4, msl, true, None, Live)
  }

  /** All other names lead where they led, to objects with the same model and the same lock. */
  ghost predicate OthersKept(r: Reg, r': Reg, name: string) {
    forall other :: other != name ==>
      && Get(r'.models, other) == Get(r.models, other)
      && (Get(r.models, other).Some? ==>
            var id := Get(r.models, other).value;
            id < |r.heap| && id < |r'.heap| && r'.heap[id] == r.heap[id])
  }

  lemma PutOthers(d: seq<Slot>, name: string, id: nat, other: string)
    requires other != name
    ensures Get(Put(d, name, id), other) == Get(d, other)
  {
    var d' := Put(d, name, id);
    var i, j, k := IndexOf(d, name), IndexOf(d, other), IndexOf(d', other);
    if j < |d| {
      assert d'[j] == d[j];
      assert k <= j;
    }
  }

  lemma CommitServes(r: Reg, name: string, id: nat, persist: bool, wrote: bool)
    requires DictInv(r) && IdsKnown(r.models, r.heap) && id < |r.heap| && r.heap[id].stage.Fresh?
    ensures var r' := Commit(r, name, id, persist, wrote);
            && Get(r'.models, name) == Some(id) && id < |r'.heap| && r'.heap[id] == r.heap[id].(stage := Live)
            && OthersKept(r, r', name)
            && name !in r'.loading && r'.loading == r.loading - {name}
            && (persist && wrote ==> r'.disk == Entries(r'.models, r'.heap))
            && (!(persist && wrote) ==> r'.disk == r.disk)
  {
    PutFinds(r.models, name, id);
    var r' := Commit(r, name, id, persist, wrote);
    var i := IndexOf(r.models, name);
    forall other | other != name
      ensures Get(r'.models, other) == Get(r.models, other)
      ensures Get(r.models, other).Some? ==>
                var k := Get(r.models, other).value; k < |r.heap| && k < |r'.heap| && r'.heap[k] == r.heap[k]
    {
      PutOthers(r.models, name, id, other);
      var j := IndexOf(r.models, other);
      if j < |r.models| {
        assert SlotOk(r.models[j], r.heap);
        assert i < |r.models| ==> SlotOk(r.models[i], r.heap);
      }
    }
  }

  /** `r'` is `r` with that model served under `name` and no longer loading, and with the file rewritten if it `saved`. */
  ghost predicate Added(r: Reg, r': Reg, name: string, path: string, in4: bool, msl: int, saved: bool) {
    && ServesAs(r', name, path, in4, msl) && OthersKept(r, r', name) && r'.loading == r.loading - {name}
    && IdsKnown(r'.models, r'.heap)
    && r'.disk == (if saved then Entries(r'.models, r'.heap) else r.disk)
  }

  lemma CommitAdds(s: State, s1: State, t: nat, name: string, path: string, in4: bool, msl: int, caller: Caller, wrote: bool)
    requires Inv(s) && Inv(s1) && t < |s.threads| && s1 == WithModel(s, t, name, path, in4, msl, caller)
    ensures Enabled(s1, CommitLoad(t, wrote))
    ensures var s' := Do(s1, CommitLoad(t, wrote));
            && s'.threads == s.threads[t := AfterSuccess(caller)]
            && Added(s.reg, s'.reg, name, path, in4, msl, caller.Admin? && wrote)
  {
    CommitServes(s1.reg, name, |s.reg.heap|, caller.Admin?, wrote);
    var r' := Commit(s1.reg, name, |s.reg.heap|, caller.Admin?, wrote);
    ExtendedKeeps(s.reg, s1.reg, r', name);
    CommitIds(s1, t, wrote);
    GotoTwice(s, t, s1.threads[t], AfterSuccess(caller));
  }

  lemma CommitIds(s: State, t: nat, wrote: bool)
    requires Inv(s) && Enabled(s, CommitLoad(t, wrote))
    ensures var pc := s.threads[t];
            && pc.id < |s.reg.heap|
            && var r' := Commit(s.reg, pc.name, pc.id, pc.caller.Admin?, wrote);
               Do(s, CommitLoad(t, wrote)) == Goto(s.(reg := r'), t, AfterSuccess(pc.caller)) && IdsKnown(r'.models, r'.heap)
  {
    assert ThreadInv(s.reg, t, s.threads[t]);
    StepInv(s, CommitLoad(t, wrote));
  }

  /** A load that has its reservation, enough memory and a working loader ends with its model served. */
  lemma ReservedIsServed(s: State, t: nat, name: string, path: string, in4: bool, msl: int, caller: Caller, wrote: bool)
    requires Inv(s) && HasReserved(s, t, name, path, in4, msl, caller)
    ensures var run := LoadRun(t, wrote);
            && Possible(s, run)
            && var s' := After(s, run);
               && s'.threads == s.threads[t := AfterSuccess(caller)]
               && Added(s.reg, s'.reg, name, path, in4, msl, caller.Admin? && wrote)
  {
    LoaderRuns(s, t, name, path, in4, msl, caller);
    var before := [Probe(t, true), LoaderReturns(t, true)];
    var s1 := After(s, before);
    var s' := Do(s1, CommitLoad(t, wrote));
    RunThen(s, before, CommitLoad(t, wrote), s');
    assert before + [CommitLoad(t, wrote)] == LoadRun(t, wrote);
    CommitAdds(s, s1, t, name, path, in4, msl, caller, wrote);
  }

  lemma ExtendedKeeps(r: Reg, r1: Reg, r': Reg, name: string)
    requires IdsKnown(r.models, r.heap) && r1.models == r.models && r.heap <= r1.heap && OthersKept(r1, r', name)
    ensures OthersKept(r, r', name)
  {
    forall other | other != name
      ensures Get(r'.models, other) == Get(r.models, other)
      ensures Get(r.models, other).Some? ==>
                var k := Get(r.models, other).value; k < |r.heap| && k < |r'.heap| && r'.heap[k] == r.heap[k]
    {
      assert Get(r'.models, other) == Get(r1.models, other);
    }
  }

  /** The reservation itself makes no difference to what a load adds. */
  lemma ReservedAdds(r: Reg, r': Reg, t: nat, name: string, path: string, in4: bool, msl: int, saved: bool)
    requires IdsKnown(r.models, r.heap) && name !in r.loading
    requires Added(r.(loading := r.loading[name := t]), r', name, path, in4, msl, saved)
    ensures Added(r, r', name, path, in4, msl, saved)
  {
    assert r.loading[name := t] - {name} == r.loading - {name};
    ExtendedKeeps(r, r.(loading := r.loading[name := t]), r', name);
  }

  function WithReservation(s: State, t: nat, name: string, path: string, in4: bool, msl: int, caller: Caller): State {
    Goto(s.(reg := s.reg.(loading := s.reg.loading[name := t])), t, Reserving(Reserved, name, path, in4, msl, caller))
  }

  /** A step that makes the reservation, and then the rest of the load. */
  lemma ThenServed(s: State, a: Action, t: nat, name: string, path: string, in4: bool, msl: int, caller: Caller, wrote: bool)
    requires Inv(s) && t < |s.threads| && name !in s.reg.loading
    requires Leads(s, a, WithReservation(s, t, name, path, in4, msl, caller))
    ensures var run := [a] + LoadRun(t, wrote);
            && Possible(s, run)
            && var s' := After(s, run);
               && s'.threads == s.threads[t := AfterSuccess(caller)]
               && Added(s.reg, s'.reg, name, path, in4, msl, caller.Admin? && wrote)
  {
    StepInv(s, a);
    var s1 := WithReservation(s, t, name, path, in4, msl, caller);
    ReservedIsServed(s1, t, name, path, in4, msl, caller, wrote);
    var run := [a] + LoadRun(t, wrote);
    assert run[1..] == LoadRun(t, wrote);
    RunFirst(s, run, s1);
    GotoTwice(s, t, s1.threads[t], AfterSuccess(caller));
    ReservedAdds(s.reg, After(s, run).reg, t, name, path, in4, msl, caller.Admin? && wrote);
  }

  /**
   * A valid load there is room for succeeds: its model is served under its name with its path and settings, the
   * reservation is over, all other models are as they were, and the file describes the registry when the write worked.
   */
  lemma LoadSucceeds(s: State, a: Action, wrote: bool)
    requires Inv(s) && a.StartLoad? && Enabled(s, a)
    requires NameOk(a.name) && MslOk(a.msl) && a.target.Some? && HasRoomFor(s.reg, a.name)
    ensures var run := [a] + LoadRun(a.t, wrote);
            && Possible(s, run)
            && var s' := After(s, run);
               && s'.threads == s.threads
               && Added(s.reg, s'.reg, a.name, a.target.value, a.in4, a.msl, wrote)
  {
    LoadReservesIff(s, a);
    ThenServed(s, a, a.t, a.name, a.target.value, a.in4, a.msl, Admin, wrote);
    assert s.threads[a.t := Idle] == s.threads;
  }

  /** And from there any other thread gets an answer from it. */
  lemma LoadedIsPredicted(s: State, a: Action, wrote: bool, u: nat)
    requires Inv(s) && a.StartLoad? && Enabled(s, a)
    requires NameOk(a.name) && MslOk(a.msl) && a.target.Some? && HasRoomFor(s.reg, a.name)
    requires u < |s.threads| && s.threads[u].Idle?
    ensures var run := [a] + LoadRun(a.t, wrote);
            && Possible(s, run)
            && var s' := After(s, run);
               && Possible(s', RequestRun(u, a.name))
               && var s'' := After(s', RequestRun(u, a.name));
                  && u < |s''.threads| && s''.threads[u].Run? && s''.threads[u].running.Predicting?
                  && s''.threads[u].id < |s''.reg.heap| && s''.reg.heap[s''.threads[u].id].path == a.target.value
  {
    LoadSucceeds(s, a, wrote);
    var run := [a] + LoadRun(a.t, wrote);
    RunKeepsInv(s, run);
    var s' := After(s, run);
    ServedIsPredicted(s', u, a.name, Get(s'.reg.models, a.name).value);
  }

  /** A load that finds too little memory leaves the server exactly as it was. */
  lemma RefusedLoadLeavesNoTrace(s: State, a: Action)
    requires Inv(s) && a.StartLoad? && Enabled(s, a)
    requires NameOk(a.name) && MslOk(a.msl) && a.target.Some? && HasRoomFor(s.reg, a.name)
    ensures var run := [a, Probe(a.t, false), GiveUp(a.t)];
            Possible(s, run) && After(s, run) == s
  {
    LoadReservesIff(s, a);
    StepInv(s, a);
    var t := a.t;
    var s1 := Do(s, a);
    ProbeRefuses(s1, t);
    var run := [a, Probe(t, false), GiveUp(t)];
    assert run[1..] == [Probe(t, false), GiveUp(t)];
    RunFirst(s, run, s1);
    ReservationUndone(s, t, a.name, s1.threads[t]);
  }

  lemma ReservationUndone(s: State, t: nat, name: string, pc: Pc)
    requires t < |s.threads| && s.threads[t] == Idle && name !in s.reg.loading
    ensures var s1 := Goto(s.(reg := s.reg.(loading := s.reg.loading[name := t])), t, pc);
            Goto(s1.(reg := Discard(s1.reg, name)), t, Idle) == s
  {
    assert s.threads[t := pc][t := Idle] == s.threads;
    assert s.reg.loading[name := t] - {name} == s.reg.loading;
  }

  lemma ProbeRefuses(s: State, t: nat)
    requires Inv(s) && t < |s.threads| && s.threads[t].Reserving? && s.threads[t].reserving.Reserved?
    ensures var run, pc := [Probe(t, false), GiveUp(t)], s.threads[t];
            Possible(s, run) && After(s, run) == Goto(s.(reg := Discard(s.reg, pc.name)), t, AfterFailure(pc.caller))
  {
    var pc := s.threads[t];
    var s1 := Goto(s, t, pc.(reserving := Refused));
    assert Leads(s, Probe(t, false), s1);
    GiveUpLeads(s1, t);
    GotoTwice(s.(reg := Discard(s.reg, pc.name)), t, s1.threads[t], AfterFailure(pc.caller));
    RunTwo(s, Probe(t, false), s1, GiveUp(t), Do(s1, GiveUp(t)));
  }

  /** A load whose loader raises leaves nothing behind but an object nobody can reach. */
  lemma BrokenLoadLeavesNoTrace(s: State, a: Action)
    requires Inv(s) && a.StartLoad? && Enabled(s, a)
    requires NameOk(a.name) && MslOk(a.msl) && a.target.Some? && HasRoomFor(s.reg, a.name)
    ensures var run := [a, Probe(a.t, true), LoaderReturns(a.t, false), GiveUp(a.t)];
            && Possible(s, run)
            && var s' := After(s, run);
               |s'.reg.heap| == |s.reg.heap| + 1 && s'.(reg := s'.reg.(heap := s'.reg.heap[..|s.reg.heap|])) == s
  {
    LoadReservesIff(s, a);
    StepInv(s, a);
    var t := a.t;
    var s1 := Do(s, a);
    LoaderRaises(s1, t);
    var run := [a, Probe(t, true), LoaderReturns(t, false), GiveUp(t)];
    assert run[1..] == [Probe(t, true), LoaderReturns(t, false), GiveUp(t)];
    RunFirst(s, run, s1);
    MakingUndone(s, t, a.name, s1.threads[t]);
  }

  lemma MakingUndone(s: State, t: nat, name: string, pc: Pc)
    requires t < |s.threads| && s.threads[t] == Idle && name !in s.reg.loading && pc.Reserving?
    ensures var s1 := Goto(s.(reg := s.reg.(loading := s.reg.loading[name := t])), t, pc);
            var s' := Goto(s1.(reg := Discard(Make(s1.reg, pc.name, pc.path, pc.in4, pc.msl, t), name)), t, Idle);
            |s'.reg.heap| == |s.reg.heap| + 1 && s'.(reg := s'.reg.(heap := s'.reg.heap[..|s.reg.heap|])) == s
  {
    assert s.threads[t := pc][t := Idle] == s.threads;
    assert s.reg.loading[name := t] - {name} == s.reg.loading;
    assert Make(s.reg, pc.name, pc.path, pc.in4, pc.msl, t).heap[..|s.reg.heap|] == s.reg.heap;
  }

  lemma LoaderRaises(s: State, t: nat)
    requires Inv(s) && t < |s.threads| && s.threads[t].Reserving? && s.threads[t].reserving.Reserved?
    ensures var run, pc := [Probe(t, true), LoaderReturns(t, false), GiveUp(t)], s.threads[t];
            && Possible(s, run)
            && After(s, run) == Goto(s.(reg := Discard(Make(s.reg, pc.name, pc.path, pc.in4, pc.msl, t), pc.name)), t, AfterFailure(pc.caller))
  {
    var pc, s1 := s.threads[t], Probed(s, t);
    ProbeLeads(s, t);
    LoaderLeads(s1, t);
    var s2 := Goto(s1, t, s1.threads[t].(making := Broken));
    GiveUpLeads(s2, t);
    var r' := Discard(s1.reg, pc.name);
    GotoTwice(s.(reg := r'), t, s1.threads[t], s2.threads[t]);
    GotoTwice(s.(reg := r'), t, s2.threads[t], AfterFailure(pc.caller));
    RunThree(s, Probe(t, true), s1, LoaderReturns(t, false), s2, GiveUp(t), Do(s2, GiveUp(t)));
  }

  // ------------------------------------------------------------------------------------------
  // Unloads
  // ------------------------------------------------------------------------------------------

  function UnloadRun(t: nat, name: string, wrote: bool): seq<Action> {
    [StartUnload(t, name, wrote), LockForUnload(t), DropModel(t), FinishUnload(t)]
  }

  lemma PopOthers(r: Reg, name: string, wrote: bool)
    requires DictInv(r) && IdsKnown(r.models, r.heap) && Has(r.models, name)
    ensures OthersKept(r, Pop(r, name, wrote), name)
  {
    var r' := Pop(r, name, wrote);
    var i := IndexOf(r.models, name);
    forall other | other != name
      ensures Get(r'.models, other) == Get(r.models, other)
      ensures Get(r.models, other).Some? ==>
                var k := Get(r.models, other).value; k < |r.heap| && k < |r'.heap| && r'.heap[k] == r.heap[k]
    {
      DropOthers(r.models, name, other);
      var j := IndexOf(r.models, other);
      if j < |r.models| {
        assert SlotOk(r.models[j], r.heap) && SlotOk(r.models[i], r.heap);
      }
    }
  }

  /** An unload is refused exactly for a name that is loading or not served; then nothing happens. */
  lemma UnloadStartsIff(s: State, t: nat, name: string, wrote: bool)
    requires Inv(s) && Enabled(s, StartUnload(t, name, wrote))
    ensures var s' := Do(s, StartUnload(t, name, wrote));
            if name !in s.reg.loading && exists i :: 0 <= i < |s.reg.models| && s.reg.models[i].name == name
            then Get(s.reg.models, name).Some? && s'.threads[t] == Unload(Popped, Get(s.reg.models, name).value)
                 && Get(s'.reg.models, name) == None && OthersKept(s.reg, s'.reg, name)
            else s' == s
  {
    HasIffMember(s.reg.models, name);
    if name !in s.reg.loading && Has(s.reg.models, name) {
      PopOthers(s.reg, name, wrote);
      PopForgets(s.reg, name, name);
      PopGone(s.reg, name, wrote);
    }
  }

  lemma PopGone(r: Reg, name: string, wrote: bool)
    requires DictInv(r) && IdsKnown(r.models, r.heap) && Has(r.models, name)
    ensures !Has(Pop(r, name, wrote).models, name)
  {
    PopForgets(r, name, name);
    assert Pop(r, name, wrote).models == Pop(r, name, true).models;
  }

  lemma UnloadMovesOn(s: State, t: nat, id: nat)
    requires Inv(s) && t < |s.threads| && s.threads[t] == Unload(Popped, id) && Free(s.reg, id)
    ensures var run := [LockForUnload(t), DropModel(t), FinishUnload(t)];
            && Possible(s, run)
            && After(s, run) == Goto(s.(reg := SetLoaded(s.reg, id, false)), t, Idle)
  {
    var s1 := Do(s, LockForUnload(t));
    HeldMovesOn(s1, t, id);
    var run := [LockForUnload(t), DropModel(t), FinishUnload(t)];
    assert run[1..] == [DropModel(t), FinishUnload(t)];
    RunFirst(s, run, s1);
    LockUndone(s, t, id, Unload(Clearing, id));
  }

  lemma LockUndone(s: State, t: nat, id: nat, pc: Pc)
    requires t < |s.threads| && Free(s.reg, id)
    ensures var s1 := Goto(s.(reg := SetLock(s.reg, id, Some(t))), t, pc);
            Goto(s1.(reg := SetLock(SetLoaded(s1.reg, id, false), id, None)), t, Idle)
            == Goto(s.(reg := SetLoaded(s.reg, id, false)), t, Idle)
  {
    var s1 := Goto(s.(reg := SetLock(s.reg, id, Some(t))), t, pc);
    assert SetLock(SetLoaded(s1.reg, id, false), id, None).heap == SetLoaded(s.reg, id, false).heap;
    assert s.threads[t := pc][t := Idle] == s.threads[t := Idle];
  }

  lemma HeldMovesOn(s: State, t: nat, id: nat)
    requires IdsKnown(s.reg.models, s.reg.heap) && t < |s.threads| && s.threads[t] == Unload(Clearing, id) && id < |s.reg.heap|
    ensures var run := [DropModel(t), FinishUnload(t)];
            && Possible(s, run)
            && After(s, run) == Goto(s.(reg := SetLock(SetLoaded(s.reg, id, false), id, None)), t, Idle)
  {
    var s1 := Goto(s.(reg := SetLoaded(s.reg, id, false)), t, Unload(Cleared, id));
    DropLeads(s, t, id);
    FinishLeads(s1, t, id);
    GotoTwice(s.(reg := SetLock(s1.reg, id, None)), t, Unload(Cleared, id), Idle);
    RunTwo(s, DropModel(t), s1, FinishUnload(t), Do(s1, FinishUnload(t)));
  }

  lemma DropLeads(s: State, t: nat, id: nat)
    requires IdsKnown(s.reg.models, s.reg.heap) && t < |s.threads| && s.threads[t] == Unload(Clearing, id) && id < |s.reg.heap|
    ensures Leads(s, DropModel(t), Goto(s.(reg := SetLoaded(s.reg, id, false)), t, Unload(Cleared, id)))
    ensures IdsKnown(s.reg.models, SetLoaded(s.reg, id, false).heap)
  {
  }

  lemma FinishLeads(s: State, t: nat, id: nat)
    requires IdsKnown(s.reg.models, s.reg.heap) && t < |s.threads| && s.threads[t] == Unload(Cleared, id) && id < |s.reg.heap|
    ensures Leads(s, FinishUnload(t), Goto(s.(reg := SetLock(s.reg, id, None)), t, Idle))
  {
  }

  /** An unload of a served model nobody uses goes through: the name is free, the model dropped, all others are kept. */
  lemma UnloadSucceeds(s: State, t: nat, name: string, id: nat, wrote: bool)
    requires Inv(s) && t < |s.threads| && s.threads[t].Idle?
    requires name !in s.reg.loading && Get(s.reg.models, name) == Some(id) && Free(s.reg, id)
    ensures var run := UnloadRun(t, name, wrote);
            && Possible(s, run)
            && var s' := After(s, run);
               && s'.threads == s.threads && Get(s'.reg.models, name) == None && OthersKept(s.reg, s'.reg, name)
               && id < |s'.reg.heap| && !s'.reg.heap[id].loaded && s'.reg.heap[id].holder == None
  {
    var a := StartUnload(t, name, wrote);
    UnloadLeads(s, t, name, id, wrote);
    PopLeaves(s.reg, name, id, wrote);
    StepInv(s, a);
    var r1 := Pop(s.reg, name, wrote);
    UnloadGoesThrough(s, a, t, r1, id);
    assert UnloadRun(t, name, wrote) == [a, LockForUnload(t), DropModel(t), FinishUnload(t)];
    UnloadLeaves(s, t, r1, name, id);
  }

  lemma UnloadLeaves(s: State, t: nat, r1: Reg, name: string, id: nat)
    requires DictInv(s.reg) && t < |s.threads| && s.threads[t].Idle? && Get(s.reg.models, name) == Some(id)
    requires Free(r1, id) && Get(r1.models, name) == None && OthersKept(s.reg, r1, name)
    ensures var s' := Goto(s.(reg := SetLoaded(r1, id, false)), t, Idle);
            && s'.threads == s.threads && Get(s'.reg.models, name) == None && OthersKept(s.reg, s'.reg, name)
            && id < |s'.reg.heap| && !s'.reg.heap[id].loaded && s'.reg.heap[id].holder == None
  {
    DroppedKeeps(s.reg, r1, name, id);
    assert s.threads[t := Idle] == s.threads;
  }

  lemma UnloadGoesThrough(s: State, a: Action, t: nat, r1: Reg, id: nat)
    requires t < |s.threads| && Free(r1, id)
    requires Leads(s, a, Goto(s.(reg := r1), t, Unload(Popped, id))) && Inv(Goto(s.(reg := r1), t, Unload(Popped, id)))
    ensures var run := [a, LockForUnload(t), DropModel(t), FinishUnload(t)];
            Possible(s, run) && After(s, run) == Goto(s.(reg := SetLoaded(r1, id, false)), t, Idle)
  {
    var s1 := Goto(s.(reg := r1), t, Unload(Popped, id));
    UnloadMovesOn(s1, t, id);
    var run := [a, LockForUnload(t), DropModel(t), FinishUnload(t)];
    assert run[1..] == [LockForUnload(t), DropModel(t), FinishUnload(t)];
    RunFirst(s, run, s1);
    GotoTwice(s.(reg := SetLoaded(r1, id, false)), t, Unload(Popped, id), Idle);
  }

  lemma UnloadLeads(s: State, t: nat, name: string, id: nat, wrote: bool)
    requires Inv(s) && t < |s.threads| && s.threads[t].Idle?
    requires name !in s.reg.loading && Get(s.reg.models, name) == Some(id) && Free(s.reg, id)
    ensures Leads(s, StartUnload(t, name, wrote), Goto(s.(reg := Pop(s.reg, name, wrote)), t, Unload(Popped, id)))
  {
  }

  lemma PopLeaves(r: Reg, name: string, id: nat, wrote: bool)
    requires DictInv(r) && IdsKnown(r.models, r.heap) && Get(r.models, name) == Some(id) && Free(r, id)
    ensures var r1 := Pop(r, name, wrote);
            Free(r1, id) && Get(r1.models, name) == None && OthersKept(r, r1, name)
  {
    PopOthers(r, name, wrote);
    PopGone(r, name, wrote);
  }

  lemma DroppedKeeps(r: Reg, r1: Reg, name: string, id: nat)
    requires DictInv(r) && Get(r.models, name) == Some(id) && OthersKept(r, r1, name)
    ensures OthersKept(r, SetLoaded(r1, id, false), name)
  {
    var r' := SetLoaded(r1, id, false);
    var i := IndexOf(r.models, name);
    forall other | other != name
      ensures Get(r'.models, other) == Get(r.models, other)
      ensures Get(r.models, other).Some? ==>
                var k := Get(r.models, other).value; k < |r.heap| && k < |r'.heap| && r'.heap[k] == r.heap[k]
    {
      assert Get(r1.models, other) == Get(r.models, other);
      var j := IndexOf(r.models, other);
      if j < |r.models| {
        assert SlotOk(r.models[j], r.heap) && SlotOk(r.models[i], r.heap);
      }
    }
  }

  // ------------------------------------------------------------------------------------------
  // The restore thread
  // ------------------------------------------------------------------------------------------

  /** An entry restore has not met yet, with a text path and settings `load` accepts. */
  predicate Restorable(e: Raw, seen: set<string>) {
    && e.Raw? && e.name !in seen && NameOk(e.name) && MslOk(ReadMsl(e.msl)) && e.path.PathText? && e.path.text != ""
  }

  /** Such an entry, whose path resolves and whose model loads, is served when restore turns to the next one. */
  lemma BootServes(s: State, t: nat, path: string, wrote: bool)
    requires Inv(s) && t < |s.threads| && s.threads[t].BootNext? && s.threads[t].todo != [] && path != ""
    requires Restorable(s.threads[t].todo[0], s.threads[t].seen) && HasRoomFor(s.reg, s.threads[t].todo[0].name)
    ensures var run := [BootTry(t, Some(path))] + LoadRun(t, wrote);
            && Possible(s, run)
            && var e, s' := s.threads[t].todo[0], After(s, run);
               && s'.threads == s.threads[t := BootNext(s.threads[t].todo[1..], s.threads[t].seen + {e.name})]
               && Added(s.reg, s'.reg, e.name, path, e.in4, ReadMsl(e.msl), false)
  {
    var a := BootTry(t, Some(path));
    var pc := s.threads[t];
    var e := pc.todo[0];
    BootReserves(s, t, path);
    ThenServed(s, a, t, e.name, path, e.in4, ReadMsl(e.msl), Boot(e, pc.todo[1..], pc.seen + {e.name}), wrote);
  }

  lemma BootReserves(s: State, t: nat, path: string)
    requires Inv(s) && t < |s.threads| && s.threads[t].BootNext? && s.threads[t].todo != [] && path != ""
    requires Restorable(s.threads[t].todo[0], s.threads[t].seen) && HasRoomFor(s.reg, s.threads[t].todo[0].name)
    ensures var pc, e := s.threads[t], s.threads[t].todo[0];
            && Enabled(s, BootTry(t, Some(path)))
            && Do(s, BootTry(t, Some(path))) ==
                 Goto(s.(reg := s.reg.(loading := s.reg.loading[e.name := t])), t,
                      Reserving(Reserved, e.name, path, e.in4, ReadMsl(e.msl), Boot(e, pc.todo[1..], pc.seen + {e.name})))
  {
    RoomIff(s.reg, s.threads[t].todo[0].name);
  }

  /** With nothing left to do, restore writes the file and the server says that it is ready. */
  lemma BootEnds(s: State, t: nat, wrote: bool)
    requires Inv(s) && t < |s.threads| && s.threads[t].BootNext? && s.threads[t].todo == []
    ensures var run := [BootSave(t, wrote), BootReady(t)];
            && Possible(s, run)
            && var s' := After(s, run);
               && s'.reg.ready && s'.threads == s.threads[t := Stopped] && s'.reg.models == s.reg.models
               && (wrote ==> s'.reg.disk == Entries(s.reg.models, s.reg.heap))
  {
    var s1 := Do(s, BootSave(t, wrote));
    GotoTwice(s, t, BootSaved, Stopped);
    RunTwo(s, BootSave(t, wrote), s1, BootReady(t), Do(s1, BootReady(t)));
  }
}

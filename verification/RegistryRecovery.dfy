/**
 * Crash recovery of the decision server: what a restart makes of the state file the registry wrote,
 * when nothing but `restore` runs before the server is ready and no extra start-time models are given.
 */
module RegistryRecovery {
  import opened Wrappers
  import opened DecisionRegistry
  import opened RegistryProtocol
  import opened RegistrySafety
  import opened RegistryTheorems

  // ------------------------------------------------------------------------------------------
  // Files
  // ------------------------------------------------------------------------------------------

  /** What holds of every file a registry writes. */
  ghost predicate Written(file: seq<FileEntry>) {
    && (forall i :: 0 <= i < |file| ==> NameOk(file[i].name) && file[i].msl >= 0)
    && (forall i, j :: 0 <= i < j < |file| ==> file[i].name != file[j].name)
  }

  /** No entry lost its path. An entry without one can only come from a start-time model that had none. */
  ghost predicate HasPaths(file: seq<FileEntry>) {
    forall i :: 0 <= i < |file| ==> file[i].path != ""
  }

  lemma RegistryWrites(s: State)
    requires Inv(s)
    ensures Written(Entries(s.reg.models, s.reg.heap))
  {
  }

  lemma {:induction false} KeptHasPaths(file: seq<FileEntry>)
    ensures HasPaths(Kept(file))
    ensures forall i :: 0 <= i < |Kept(file)| ==> Kept(file)[i] in file
  {
    if file != [] {
      KeptHasPaths(file[1..]);
    }
  }

  lemma KeptIsWritten(file: seq<FileEntry>)
    requires Written(file)
    ensures Written(Kept(file))
  {
    KeptHasPaths(file);
    KeptIsDistinct(file);
  }

  lemma {:induction false} KeptIsDistinct(file: seq<FileEntry>)
    requires forall i, j :: 0 <= i < j < |file| ==> file[i].name != file[j].name
    ensures forall i, j :: 0 <= i < j < |Kept(file)| ==> Kept(file)[i].name != Kept(file)[j].name
  {
    if file != [] {
      var rest := Kept(file[1..]);
      KeptIsDistinct(file[1..]);
      KeptHasPaths(file[1..]);
      forall j | 0 <= j < |rest|
        ensures rest[j].name != file[0].name
      {
        assert rest[j] in file[1..];
      }
    }
  }

  /** `entries_from_disk` loses nothing exactly when every entry has its path. */
  lemma {:induction false} KeptIsAll(file: seq<FileEntry>)
    requires Written(file)
    ensures if HasPaths(file) then Kept(file) == file else |Kept(file)| < |file|
  {
    if file != [] {
      KeptIsAll(file[1..]);
      assert file == [file[0]] + file[1..];
      assert file[0].name != "";
    }
  }

  // ------------------------------------------------------------------------------------------
  // A quiet boot
  // ------------------------------------------------------------------------------------------

  /** The object restores the entry: with its name and settings, and its path too unless it loaded. */
  predicate Restores(e: FileEntry, s: Served) {
    && s.name == e.name && s.in4 == e.in4 && s.msl == e.msl && s.path != ""
    && (!s.loaded ==> s.path == e.path)
  }

  ghost predicate Seen(seen: set<string>, file: seq<FileEntry>, k: nat) {
    forall n :: n in seen ==> exists i :: 0 <= i < k && i < |file| && file[i].name == n
  }

  /** The restore thread is between its `k`-th entry and the next. */
  ghost predicate Between(r: Reg, pc: Pc, kept: seq<FileEntry>, k: nat) {
    k <= |kept| &&
    match pc
    case BootNext(todo, seen) => !r.settled && todo == ToRestore(kept)[k..] && Seen(seen, kept, k)
    case BootFailed(e, todo, seen) => AtEntry(r, e, todo, seen, kept, k)
    case Reserving(_, name, _, in4, msl, caller) =>
      && caller.Boot? && AtEntry(r, caller.entry, caller.todo, caller.seen, kept, k)
      && name == kept[k].name && in4 == kept[k].in4 && msl == kept[k].msl
    case Making(_, name, id, caller) =>
      && caller.Boot? && AtEntry(r, caller.entry, caller.todo, caller.seen, kept, k)
      && name == kept[k].name && id < |r.heap| && r.heap[id].in4 == kept[k].in4 && r.heap[id].msl == kept[k].msl
    case BootSaved => k == |kept| && r.settled
    case Stopped => k == |kept| && r.settled
    case _ => false
  }

  ghost predicate AtEntry(r: Reg, e: Raw, todo: seq<Raw>, seen: set<string>, kept: seq<FileEntry>, k: nat) {
    !r.settled && k < |kept| && e == Remembered(kept[k]) && todo == ToRestore(kept)[k + 1..] && Seen(seen, kept, k + 1)
  }

  /** Of `kept`, the first entries are in the dictionary, in order, each loaded or as a placeholder. */
  ghost predicate Restored(r: Reg, kept: seq<FileEntry>) {
    && |r.models| <= |kept| && IdsKnown(r.models, r.heap)
    && forall i :: 0 <= i < |r.models| ==>
         r.models[i].name == kept[i].name && Restores(kept[i], r.heap[r.models[i].id])
  }

  ghost predicate QuietInv(s: State, file: seq<FileEntry>) {
    && Inv(s) && |s.threads| > 0
    && Restored(s.reg, Kept(file))
    && Between(s.reg, s.threads[0], Kept(file), |s.reg.models|)
    && (s.reg.disk == file || (s.reg.settled && s.reg.disk == Entries(s.reg.models, s.reg.heap)))
  }

  /** A step that changes neither the file nor what the dictionary leads to. */
  lemma QuietMove(s: State, s': State, file: seq<FileEntry>)
    requires QuietInv(s, file) && Inv(s') && |s'.threads| > 0
    requires s'.reg.models == s.reg.models && s'.reg.disk == s.reg.disk && s'.reg.settled == s.reg.settled
    requires forall i :: 0 <= i < |s.reg.models| ==>
               var id := s.reg.models[i].id;
               Describe(s'.reg.heap[id]) == Describe(s.reg.heap[id]) && s'.reg.heap[id].loaded == s.reg.heap[id].loaded
    requires Between(s'.reg, s'.threads[0], Kept(file), |s.reg.models|)
    ensures QuietInv(s', file)
  {
    assert Entries(s'.reg.models, s'.reg.heap) == Entries(s.reg.models, s.reg.heap);
  }

  lemma TryEnters(s: State, target: Option<string>, e: FileEntry)
    requires Enabled(s, BootTry(0, target)) && IdsKnown(s.reg.models, s.reg.heap)
    requires s.threads[0].todo[0] == Remembered(e) && e.name !in s.threads[0].seen && e.msl >= 0
    ensures var pc := s.threads[0];
            Do(s, BootTry(0, target)) ==
              EnterLoad(s, 0, e.name, if e.path != "" then target else None, e.in4, e.msl,
                        Boot(Remembered(e), pc.todo[1..], pc.seen + {e.name}))
  {
  }

  /** `restore` turns to its next entry: the load reserves the name, or fails before that. */
  lemma QuietTry(s: State, target: Option<string>, file: seq<FileEntry>)
    requires QuietInv(s, file) && Written(file) && Enabled(s, BootTry(0, target))
    ensures QuietInv(Do(s, BootTry(0, target)), file)
  {
    var kept := Kept(file);
    var k := |s.reg.models|;
    var pc := s.threads[0];
    KeptIsWritten(file);
    StepInv(s, BootTry(0, target));
    var e := kept[k];
    assert pc.todo[0] == Remembered(e) && e in kept;
    assert pc.todo[1..] == ToRestore(kept)[k + 1..];
    SeenNext(pc.seen, kept, k);
    TryEnters(s, target, e);
    var caller := Boot(Remembered(e), pc.todo[1..], pc.seen + {e.name});
    QuietEnter(s, Do(s, BootTry(0, target)), if e.path != "" then target else None, caller, file);
  }

  lemma SeenNext(seen: set<string>, kept: seq<FileEntry>, k: nat)
    requires Seen(seen, kept, k) && k < |kept|
    requires forall i, j :: 0 <= i < j < |kept| ==> kept[i].name != kept[j].name
    ensures kept[k].name !in seen && Seen(seen + {kept[k].name}, kept, k + 1)
  {
  }

  lemma QuietEnter(s: State, s': State, resolved: Option<string>, caller: Caller, file: seq<FileEntry>)
    requires QuietInv(s, file) && Inv(s') && |s.reg.models| < |Kept(file)|
    requires caller.Boot? && AtEntry(s.reg, caller.entry, caller.todo, caller.seen, Kept(file), |s.reg.models|)
    requires var e := Kept(file)[|s.reg.models|]; s' == EnterLoad(s, 0, e.name, resolved, e.in4, e.msl, caller)
    ensures QuietInv(s', file)
  {
    var e := Kept(file)[|s.reg.models|];
    if !NameOk(e.name) || !MslOk(e.msl) || resolved.None? || Reserve(s.reg, e.name, 0).None? {
      assert s'.threads[0] == BootFailed(caller.entry, caller.todo, caller.seen);
    } else {
      assert s'.threads[0] == Reserving(Reserved, e.name, resolved.value, e.in4, e.msl, caller);
    }
    QuietMove(s, s', file);
  }

  lemma NotYetThere(r: Reg, kept: seq<FileEntry>)
    requires Restored(r, kept) && Written(kept) && |r.models| < |kept|
    ensures !Has(r.models, kept[|r.models|].name)
  {
    HasIffMember(r.models, kept[|r.models|].name);
  }

  lemma QuietCommit(s: State, wrote: bool, file: seq<FileEntry>)
    requires QuietInv(s, file) && Written(file) && Enabled(s, CommitLoad(0, wrote))
    ensures QuietInv(Do(s, CommitLoad(0, wrote)), file)
  {
    var pc := s.threads[0];
    KeptIsWritten(file);
    StepInv(s, CommitLoad(0, wrote));
    assert ThreadInv(s.reg, 0, pc);
    NotYetThere(s.reg, Kept(file));
    BootCommits(s, wrote);
    QuietCommitted(s.reg, pc.name, pc.id, wrote, Kept(file));
  }

  lemma BootCommits(s: State, wrote: bool)
    requires Enabled(s, CommitLoad(0, wrote)) && IdsKnown(s.reg.models, s.reg.heap)
    requires s.threads[0].id < |s.reg.heap| && s.threads[0].caller.Boot?
    ensures var pc, s' := s.threads[0], Do(s, CommitLoad(0, wrote));
            && s'.reg == Commit(s.reg, pc.name, pc.id, false, wrote)
            && |s'.threads| == |s.threads| && s'.threads[0] == BootNext(pc.caller.todo, pc.caller.seen)
  {
  }

  lemma QuietCommitted(r: Reg, name: string, id: nat, wrote: bool, kept: seq<FileEntry>)
    requires Restored(r, kept) && |r.models| < |kept| && id < |r.heap| && !Has(r.models, name)
    requires name == kept[|r.models|].name && Restores(kept[|r.models|], r.heap[id]) && r.heap[id].loaded
    ensures var r' := Commit(r, name, id, false, wrote);
            Restored(r', kept) && |r'.models| == |r.models| + 1 && r'.disk == r.disk && r'.settled == r.settled
  {
    CommitKeeps(r, name, id, false, wrote);
    assert Commit(r, name, id, false, wrote).models == r.models + [Slot(name, id)];
  }

  lemma QuietKeep(s: State, file: seq<FileEntry>)
    requires QuietInv(s, file) && Written(file) && Enabled(s, BootKeep(0))
    ensures QuietInv(Do(s, BootKeep(0)), file)
  {
    var kept, k := Kept(file), |s.reg.models|;
    KeptIsWritten(file);
    KeptHasPaths(file);
    StepInv(s, BootKeep(0));
    NotYetThere(s.reg, kept);
    KeepPlaces(s, kept[k]);
    QuietPlaced(s.reg, kept);
    assert Do(s, BootKeep(0)).threads[0] == BootNext(s.threads[0].todo, s.threads[0].seen);
  }

  lemma KeepPlaces(s: State, e: FileEntry)
    requires Enabled(s, BootKeep(0)) && IdsKnown(s.reg.models, s.reg.heap)
    requires s.threads[0].entry == Remembered(e) && NameOk(e.name) && e.msl >= 0
    ensures Do(s, BootKeep(0)).reg == Place(s.reg, e)
  {
  }

  lemma QuietPlaced(r: Reg, kept: seq<FileEntry>)
    requires Restored(r, kept) && |r.models| < |kept| && !Has(r.models, kept[|r.models|].name)
    requires kept[|r.models|].path != ""
    ensures var r' := Place(r, kept[|r.models|]);
            Restored(r', kept) && |r'.models| == |r.models| + 1 && r'.disk == r.disk && r'.settled == r.settled
  {
    var e := kept[|r.models|];
    var r' := Place(r, e);
    assert r'.models == r.models + [Slot(e.name, |r.heap|)];
    assert forall i :: 0 <= i < |r.models| ==> r'.models[i] == r.models[i];
  }

  lemma QuietLoad(s: State, a: Action, file: seq<FileEntry>)
    requires QuietInv(s, file) && Written(file) && a.t == 0 && Enabled(s, a)
    requires a.Probe? || a.LoaderReturns? || a.GiveUp?
    ensures QuietInv(Do(s, a), file)
  {
    var pc := s.threads[0];
    var s' := Do(s, a);
    StepInv(s, a);
    assert ThreadInv(s.reg, 0, pc);
    LoadKeepsEntries(s, a);
    if a.GiveUp? {
      assert s'.threads[0] == BootFailed(pc.caller.entry, pc.caller.todo, pc.caller.seen);
    } else if a.Probe? && a.enough {
      assert s'.threads[0] == Making(Loading, pc.name, |s.reg.heap|, pc.caller);
    } else if a.Probe? {
      assert s'.threads[0] == pc.(reserving := Refused);
    } else {
      assert s'.threads[0] == pc.(making := if a.ok then Loaded else Broken);
    }
    QuietMove(s, s', file);
  }

  /** A load before its commit touches no object of the dictionary. */
  lemma LoadKeepsEntries(s: State, a: Action)
    requires Inv(s) && Enabled(s, a) && (a.Probe? || a.LoaderReturns? || a.GiveUp?)
    ensures var s' := Do(s, a);
            && s'.reg.models == s.reg.models && s'.reg.disk == s.reg.disk && s'.reg.settled == s.reg.settled
            && |s'.reg.heap| >= |s.reg.heap|
            && forall i :: 0 <= i < |s.reg.models| ==>
                 var id := s.reg.models[i].id;
                 Describe(s'.reg.heap[id]) == Describe(s.reg.heap[id]) && s'.reg.heap[id].loaded == s.reg.heap[id].loaded
  {
    assert ThreadInv(s.reg, a.t, s.threads[a.t]);
  }

  lemma QuietStep(s: State, a: Action, file: seq<FileEntry>)
    requires QuietInv(s, file) && Written(file) && a.t == 0 && Enabled(s, a)
    ensures QuietInv(Do(s, a), file)
  {
    StepInv(s, a);
    if a.BootTry? {
      QuietTry(s, a.target, file);
    } else if a.CommitLoad? {
      QuietCommit(s, a.wrote, file);
    } else if a.BootKeep? {
      QuietKeep(s, file);
    } else if a.BootSave? {
      assert |ToRestore(Kept(file))[|s.reg.models|..]| == |Kept(file)| - |s.reg.models|;
    } else if a.BootReady? {
      QuietMove(s, Do(s, a), file);
    } else {
      QuietLoad(s, a, file);
    }
  }

  lemma {:induction false} QuietRun(s: State, run: seq<Action>, file: seq<FileEntry>)
    requires QuietInv(s, file) && Written(file) && Possible(s, run)
    requires forall i :: 0 <= i < |run| ==> run[i].t == 0
    ensures QuietInv(After(s, run), file)
    decreases |run|
  {
    if run != [] {
      QuietStep(s, run[0], file);
      QuietRun(Do(s, run[0]), run[1..], file);
    }
  }

  // ------------------------------------------------------------------------------------------
  // Restarts
  // ------------------------------------------------------------------------------------------

  /** One start of the server on the file: its limit, its idle threads, and how far its boot gets. */
  datatype Restart = Restart(max: int, n: nat, run: seq<Action>)

  function Booting(b: Restart, file: seq<FileEntry>): State {
    Start(b.max, file, ToRestore(Kept(file)), b.n)
  }

  /** Only the restore thread acts; the process may die at any point. */
  ghost predicate Quiet(b: Restart, file: seq<FileEntry>) {
    && (forall i :: 0 <= i < |b.run| ==> b.run[i].t == 0)
    && Possible(Booting(b, file), b.run)
  }

  ghost function Booted(b: Restart, file: seq<FileEntry>): State
    requires Quiet(b, file)
  {
    After(Booting(b, file), b.run)
  }

  lemma BootKeepsQuiet(b: Restart, file: seq<FileEntry>)
    requires Written(file) && Quiet(b, file)
    ensures QuietInv(Booted(b, file), file)
  {
    var s := Booting(b, file);
    StartInv(b.max, file, ToRestore(Kept(file)), b.n);
    assert ToRestore(Kept(file))[0..] == ToRestore(Kept(file));
    assert s.threads[0] == BootNext(ToRestore(Kept(file)), {});
    QuietRun(s, b.run, file);
  }

  function Keys(d: seq<Slot>): seq<string> {
    seq(|d|, i requires 0 <= i < |d| => d[i].name)
  }

  /**
   * Once a quiet boot is ready, the registry holds, in the file's order, one entry for every entry
   * `entries_from_disk` returned, whichever of them loaded: its settings are the file's, and its path
   * too unless it loaded from the path that one resolved to.
   */
  lemma BootRestores(b: Restart, file: seq<FileEntry>)
    requires Written(file) && Quiet(b, file) && Booted(b, file).reg.ready
    ensures var r := Booted(b, file).reg;
            && Keys(r.models) == Names(Kept(file))
            && forall i :: 0 <= i < |r.models| ==>
                 r.models[i].id < |r.heap| && Restores(Kept(file)[i], r.heap[r.models[i].id])
  {
    BootKeepsQuiet(b, file);
    var s := Booted(b, file);
    assert ThreadInv(s.reg, 0, s.threads[0]);
    assert s.reg.settled;
  }

  /**
   * A quiet boot brings back exactly the remembered names if and only if no entry of the file has an
   * empty path: `entries_from_disk` drops such an entry.
   */
  lemma BootForgetsNothingIff(b: Restart, file: seq<FileEntry>)
    requires Written(file) && Quiet(b, file) && Booted(b, file).reg.ready
    ensures Keys(Booted(b, file).reg.models) == Names(file) <==> HasPaths(file)
  {
    BootRestores(b, file);
    KeptIsAll(file);
    assert |Names(Kept(file))| == |Kept(file)| && |Names(file)| == |file|;
  }

  /** What is on disk after the boot, whether it finished or died. */
  ghost function DiskAfter(b: Restart, file: seq<FileEntry>): seq<FileEntry>
    requires Quiet(b, file)
  {
    Booted(b, file).reg.disk
  }

  /** The same models with the same settings, in the same order. Paths may have been resolved again. */
  ghost predicate SameModels(f: seq<FileEntry>, g: seq<FileEntry>) {
    |f| == |g| && forall i :: 0 <= i < |f| ==> f[i].(path := "") == g[i].(path := "")
  }

  lemma BootKeepsFile(b: Restart, file: seq<FileEntry>)
    requires Written(file) && HasPaths(file) && Quiet(b, file)
    ensures SameModels(file, DiskAfter(b, file)) && Written(DiskAfter(b, file)) && HasPaths(DiskAfter(b, file))
  {
    BootKeepsQuiet(b, file);
    KeptIsAll(file);
    var r := Booted(b, file).reg;
    if r.disk != file {
      RegistryWrites(Booted(b, file));
      assert |r.models| == |file|;
      forall i | 0 <= i < |file|
        ensures file[i].(path := "") == r.disk[i].(path := "") && r.disk[i].path != ""
      {
        assert Restores(file[i], r.heap[r.models[i].id]);
      }
    }
  }

  /** Every restart is quiet on the file the one before it left. */
  ghost predicate Restarts(bs: seq<Restart>, file: seq<FileEntry>)
    decreases |bs|
  {
    bs != [] ==> Quiet(bs[0], file) && Restarts(bs[1..], DiskAfter(bs[0], file))
  }

  ghost function DiskAfterAll(bs: seq<Restart>, file: seq<FileEntry>): seq<FileEntry>
    requires Restarts(bs, file)
    decreases |bs|
  {
    if bs == [] then file else DiskAfterAll(bs[1..], DiskAfter(bs[0], file))
  }

  /** Any number of bad boots, each finished or killed, forgets no model and changes no setting. */
  lemma {:induction false} BadBootsForgetNothing(bs: seq<Restart>, file: seq<FileEntry>)
    requires Written(file) && HasPaths(file) && Restarts(bs, file)
    ensures SameModels(file, DiskAfterAll(bs, file))
    ensures Written(DiskAfterAll(bs, file)) && HasPaths(DiskAfterAll(bs, file))
    decreases |bs|
  {
    if bs != [] {
      BootKeepsFile(bs[0], file);
      BadBootsForgetNothing(bs[1..], DiskAfter(bs[0], file));
    }
  }

  // ------------------------------------------------------------------------------------------
  // Where an empty path comes from
  // ------------------------------------------------------------------------------------------

  /** `restore` would remember this entry with a path if its load failed. */
  predicate Pathful(e: Raw) { e.Raw? ==> PathStr(e.path) != "" }

  ghost predicate AllPathful(todo: seq<Raw>) { forall i :: 0 <= i < |todo| ==> Pathful(todo[i]) }

  ghost predicate PcPathful(pc: Pc) {
    match pc
    case BootNext(todo, _) => AllPathful(todo)
    case BootFailed(e, todo, _) => Pathful(e) && AllPathful(todo)
    case Reserving(_, _, _, _, _, caller) => caller.Boot? ==> Pathful(caller.entry) && AllPathful(caller.todo)
    case Making(_, _, _, caller) => caller.Boot? ==> Pathful(caller.entry) && AllPathful(caller.todo)
    case _ => true
  }

  ghost predicate PathsInv(s: State) {
    && (forall t :: 0 <= t < |s.threads| ==> PcPathful(s.threads[t]))
    && (forall i :: 0 <= i < |s.reg.models| ==>
          s.reg.models[i].id < |s.reg.heap| && s.reg.heap[s.reg.models[i].id].path != "")
  }

  lemma PathsMove(s: State, s': State, t: nat, pc: Pc)
    requires PathsInv(s) && t < |s.threads| && PcPathful(pc) && s'.threads == s.threads[t := pc]
    requires |s.reg.heap| <= |s'.reg.heap|
    requires forall id :: 0 <= id < |s.reg.heap| ==> s'.reg.heap[id].path == s.reg.heap[id].path
    requires forall i :: 0 <= i < |s'.reg.models| ==>
               || s'.reg.models[i] in s.reg.models
               || (s'.reg.models[i].id < |s'.reg.heap| && s'.reg.heap[s'.reg.models[i].id].path != "")
    ensures PathsInv(s')
  {
  }

  lemma PathsEnter(s: State, t: nat, name: string, target: Option<string>, in4: bool, msl: int, caller: Caller)
    requires PathsInv(s) && t < |s.threads|
    requires caller.Boot? ==> Pathful(caller.entry) && AllPathful(caller.todo)
    ensures PathsInv(EnterLoad(s, t, name, target, in4, msl, caller))
  {
    var s' := EnterLoad(s, t, name, target, in4, msl, caller);
    PathsMove(s, s', t, s'.threads[t]);
  }

  lemma PathsStep(s: State, a: Action)
    requires Inv(s) && PathsInv(s) && Enabled(s, a)
    ensures PathsInv(Do(s, a))
  {
    if a.StartLoad? {
      PathsEnter(s, a.t, a.name, a.target, a.in4, a.msl, Admin);
    } else if a.BootTry? {
      PathsTry(s, a.t, a.target);
    } else if a.CommitLoad? {
      PathsCommit(s, a.t, a.wrote);
    } else if a.StartUnload? {
      PathsUnload(s, a.t, a.name, a.wrote);
    } else if a.BootKeep? || a.BootSave? || a.BootReady? {
      PathsBoot(s, a);
    } else if a.GiveUp? || a.Probe? || a.LoaderReturns? {
      PathsLoad(s, a);
    } else {
      PathsQuiet(s, a);
    }
  }

  lemma PutMembers(d: seq<Slot>, name: string, id: nat, i: nat)
    requires i < |Put(d, name, id)|
    ensures Put(d, name, id)[i] in d || Put(d, name, id)[i] == Slot(name, id)
  {
    if i < |d| && i != IndexOf(d, name) {
      assert Put(d, name, id)[i] == d[i];
    }
  }

  lemma PathsCommit(s: State, t: nat, wrote: bool)
    requires Inv(s) && PathsInv(s) && Enabled(s, CommitLoad(t, wrote))
    ensures PathsInv(Do(s, CommitLoad(t, wrote)))
  {
    var pc := s.threads[t];
    assert ThreadInv(s.reg, t, pc) && PcPathful(pc);
    CommitKeeps(s.reg, pc.name, pc.id, pc.caller.Admin?, wrote);
    var s' := Do(s, CommitLoad(t, wrote));
    assert s'.reg.models == Put(s.reg.models, pc.name, pc.id);
    forall i | 0 <= i < |s'.reg.models|
      ensures s'.reg.models[i] in s.reg.models || s'.reg.models[i] == Slot(pc.name, pc.id)
    {
      PutMembers(s.reg.models, pc.name, pc.id, i);
    }
    assert s'.reg.heap[pc.id].path != "";
    PathsMove(s, s', t, AfterSuccess(pc.caller));
  }

  lemma PathsUnload(s: State, t: nat, name: string, wrote: bool)
    requires Inv(s) && PathsInv(s) && Enabled(s, StartUnload(t, name, wrote))
    ensures PathsInv(Do(s, StartUnload(t, name, wrote)))
  {
    if name !in s.reg.loading && Has(s.reg.models, name) {
      PopKeeps(s.reg, name, wrote);
      var s' := Do(s, StartUnload(t, name, wrote));
      PathsMove(s, s', t, s'.threads[t]);
    }
  }

  lemma PathsBoot(s: State, a: Action)
    requires Inv(s) && PathsInv(s) && Enabled(s, a) && (a.BootKeep? || a.BootSave? || a.BootReady?)
    ensures PathsInv(Do(s, a))
  {
    var s' := Do(s, a);
    var pc := s.threads[a.t];
    assert PcPathful(pc);
    if a.BootKeep? {
      PathsKeep(s, a.t);
    } else {
      PathsMove(s, s', a.t, s'.threads[a.t]);
    }
  }

  lemma PathsKeep(s: State, t: nat)
    requires Inv(s) && PathsInv(s) && Enabled(s, BootKeep(t))
    ensures PathsInv(Do(s, BootKeep(t)))
  {
    var pc := s.threads[t];
    var s' := Do(s, BootKeep(t));
    assert PcPathful(pc);
    if pc.entry.Raw? && NameOk(pc.entry.name) {
      PlacedPaths(s.reg, Placeholder(pc.entry));
      assert s'.reg == Place(s.reg, Placeholder(pc.entry));
    }
    PathsMove(s, s', t, BootNext(pc.todo, pc.seen));
  }

  lemma PlacedPaths(r: Reg, e: FileEntry)
    requires e.path != ""
    ensures var r' := Place(r, e);
            && |r.heap| <= |r'.heap| && (forall id :: 0 <= id < |r.heap| ==> r'.heap[id] == r.heap[id])
            && forall i :: 0 <= i < |r'.models| ==>
                 || r'.models[i] in r.models
                 || (r'.models[i].id < |r'.heap| && r'.heap[r'.models[i].id].path != "")
  {
    var r' := Place(r, e);
    forall i | 0 <= i < |r'.models|
      ensures || r'.models[i] in r.models
              || (r'.models[i].id < |r'.heap| && r'.heap[r'.models[i].id].path != "")
    {
      if i < |r.models| { assert r'.models[i] == r.models[i]; }
    }
  }

  lemma PathsLoad(s: State, a: Action)
    requires Inv(s) && PathsInv(s) && Enabled(s, a) && (a.GiveUp? || a.Probe? || a.LoaderReturns?)
    ensures PathsInv(Do(s, a))
  {
    var s' := Do(s, a);
    assert PcPathful(s.threads[a.t]) && ThreadInv(s.reg, a.t, s.threads[a.t]);
    LoadKeepsPaths(s, a);
    PathsMove(s, s', a.t, s'.threads[a.t]);
  }

  lemma LoadKeepsPaths(s: State, a: Action)
    requires IdsKnown(s.reg.models, s.reg.heap) && Enabled(s, a) && (a.GiveUp? || a.Probe? || a.LoaderReturns?)
    ensures var s' := Do(s, a);
            && s'.reg.models == s.reg.models && |s.reg.heap| <= |s'.reg.heap|
            && (forall id :: 0 <= id < |s.reg.heap| ==> s'.reg.heap[id].path == s.reg.heap[id].path)
            && (PcPathful(s.threads[a.t]) ==> PcPathful(s'.threads[a.t]))
  {
  }

  lemma PathsTry(s: State, t: nat, target: Option<string>)
    requires Inv(s) && PathsInv(s) && Enabled(s, BootTry(t, target))
    ensures PathsInv(Do(s, BootTry(t, target)))
  {
    var pc := s.threads[t];
    assert PcPathful(pc);
    var e := pc.todo[0];
    if e.Junk? || e.name in pc.seen {
      PathsMove(s, Do(s, BootTry(t, target)), t, BootNext(pc.todo[1..], pc.seen));
    } else {
      var resolved := if e.path.PathText? && e.path.text != "" then target else None;
      PathsEnter(s, t, e.name, resolved, e.in4, ReadMsl(e.msl), Boot(e, pc.todo[1..], pc.seen + {e.name}));
    }
  }

  lemma PathsQuiet(s: State, a: Action)
    requires Inv(s) && PathsInv(s) && Enabled(s, a)
    requires || a.LockForUnload? || a.DropModel? || a.FinishUnload? || a.Fetch? || a.Look?
             || a.LockForRun? || a.TimeOut? || a.Recheck? || a.PredictorReturns? || a.Release?
    ensures PathsInv(Do(s, a))
  {
    var s' := Do(s, a);
    PathsMove(s, s', a.t, s'.threads[a.t]);
  }

  lemma StartPaths(max: int, disk: seq<FileEntry>, todo: seq<Raw>, n: nat)
    requires AllPathful(todo)
    ensures PathsInv(Start(max, disk, todo, n))
  {
    var s := Start(max, disk, todo, n);
    forall t | 0 <= t < |s.threads|
      ensures PcPathful(s.threads[t])
    {
      assert s.threads[t] == if t == 0 then BootNext(todo, {}) else Idle;
    }
  }

  /** A step leaves the file alone or writes the dictionary it ends with. */
  lemma DiskStep(s: State, a: Action)
    requires IdsKnown(s.reg.models, s.reg.heap) && Enabled(s, a)
    ensures var r := Do(s, a).reg;
            r.disk == s.reg.disk || (IdsKnown(r.models, r.heap) && r.disk == Entries(r.models, r.heap))
  {
    if a.CommitLoad? {
      var pc := s.threads[a.t];
      if pc.id < |s.reg.heap| { DiskCommit(s.reg, pc.name, pc.id, pc.caller.Admin?, a.wrote); }
    } else if a.StartUnload? {
      if a.name !in s.reg.loading && Has(s.reg.models, a.name) { DiskPop(s.reg, a.name, a.wrote); }
    } else if !a.BootSave? {
      DiskQuiet(s, a);
    }
  }

  /** Only a commit, an unload and the end of `restore` write. */
  lemma DiskQuiet(s: State, a: Action)
    requires IdsKnown(s.reg.models, s.reg.heap) && Enabled(s, a) && !a.CommitLoad? && !a.StartUnload? && !a.BootSave?
    ensures Do(s, a).reg.disk == s.reg.disk
  {
  }

  lemma DiskCommit(r: Reg, name: string, id: nat, persist: bool, wrote: bool)
    requires id < |r.heap| && IdsKnown(r.models, r.heap)
    ensures var r' := Commit(r, name, id, persist, wrote);
            IdsKnown(r'.models, r'.heap) && (r'.disk == r.disk || r'.disk == Entries(r'.models, r'.heap))
  {
    var r' := Commit(r, name, id, persist, wrote);
    forall i | 0 <= i < |r'.models|
      ensures r'.models[i].id < |r'.heap|
    {
      PutMembers(r.models, name, id, i);
    }
  }

  lemma DiskPop(r: Reg, name: string, wrote: bool)
    requires Has(r.models, name) && IdsKnown(r.models, r.heap)
    ensures var r' := Pop(r, name, wrote);
            IdsKnown(r'.models, r'.heap) && (r'.disk == r.disk || r'.disk == Entries(r'.models, r'.heap))
  {
  }

  /** The file is the one the server started on, or one a registry could have written, with every path. */
  ghost predicate DiskFine(disk: seq<FileEntry>, first: seq<FileEntry>) {
    disk == first || (HasPaths(disk) && Written(disk))
  }

  lemma DiskStaysFine(s: State, a: Action, first: seq<FileEntry>)
    requires Inv(s) && PathsInv(s) && Enabled(s, a) && DiskFine(s.reg.disk, first)
    requires Inv(Do(s, a)) && PathsInv(Do(s, a))
    ensures DiskFine(Do(s, a).reg.disk, first)
  {
    DiskStep(s, a);
    RegistryWrites(Do(s, a));
  }

  lemma {:induction false} DiskRun(s: State, run: seq<Action>, first: seq<FileEntry>)
    requires Inv(s) && PathsInv(s) && Possible(s, run) && DiskFine(s.reg.disk, first)
    ensures DiskFine(After(s, run).reg.disk, first)
    decreases |run|
  {
    if run != [] {
      StepInv(s, run[0]);
      PathsStep(s, run[0]);
      DiskStaysFine(s, run[0], first);
      DiskRun(Do(s, run[0]), run[1..], first);
    }
  }

  /**
   * When every start-time model has a path, then after any run, at any moment of it, whoever wrote last and
   * whether a later write failed: the file is the one the server started on, or all its entries have paths.
   */
  lemma PathfulStartsWritePaths(s: State, max: int, disk: seq<FileEntry>, todo: seq<Raw>, n: nat, run: seq<Action>)
    requires s == Start(max, disk, todo, n) && AllPathful(todo) && Possible(s, run)
    ensures var file := After(s, run).reg.disk; file == disk || (HasPaths(file) && Written(file))
  {
    StartInv(max, disk, todo, n);
    StartPaths(max, disk, todo, n);
    DiskRun(s, run, disk);
  }

  /** A start-time model without a path, and what the first boot writes for it. */
  const PATHLESS_MODEL := Raw.Raw(['m'], PathMissing, false, MslOther)
  const LOST_ENTRY := FileEntry(['m'], "", false, 4096)

  lemma LostNameIsOk()
    ensures NameOk(['m'])
  {
    assert NameCore(['m']) == ['m'] && NameChar('m');
    assert forall i :: 0 <= i < |['m']| ==> ['m'][i] == 'm';
  }

  lemma LostEntrySteps(s: State)
    requires s == Start(3, [], [PATHLESS_MODEL], 0)
    ensures Enabled(s, BootTry(0, None))
    ensures var s1 := Do(s, BootTry(0, None));
            && s1 == Goto(s, 0, BootFailed(PATHLESS_MODEL, [], {['m']}))
            && Enabled(s1, BootKeep(0))
            && var s2 := Do(s1, BootKeep(0));
            && s2.reg == s.reg.(models := [Slot(['m'], 0)], heap := [Served(['m'], "", false, 4096, false, None, Live)])
            && s2.threads == [BootNext([], {['m']})]
  {
    assert IndexOf([], ['m']) == 0;
    LostNameIsOk();
    assert [PATHLESS_MODEL][1..] == [];
    assert {} + {['m']} == {['m']};
  }

  lemma LostEntrySaved(s: State)
    requires s.reg.models == [Slot(['m'], 0)] && s.reg.heap == [Served(['m'], "", false, 4096, false, None, Live)]
    requires s.threads == [BootNext([], {['m']})]
    ensures IdsKnown(s.reg.models, s.reg.heap) && Enabled(s, BootSave(0, true))
    ensures var s1 := Do(s, BootSave(0, true));
            && s1.reg.disk == [LOST_ENTRY] && IdsKnown(s1.reg.models, s1.reg.heap) && Enabled(s1, BootReady(0))
            && Do(s1, BootReady(0)).reg.disk == [LOST_ENTRY]
  {
  }

  lemma RunOne(s: State, a: Action, rest: seq<Action>)
    requires IdsKnown(s.reg.models, s.reg.heap) && Enabled(s, a) && Possible(Do(s, a), rest)
    ensures Possible(s, [a] + rest) && After(s, [a] + rest) == After(Do(s, a), rest)
  {
    assert ([a] + rest)[1..] == rest;
  }

  /** A model started without a path is remembered by the first boot and forgotten by the next. */
  lemma PathlessModelIsForgotten()
    ensures var s := Start(3, [], [PATHLESS_MODEL], 0);
            var run := [BootTry(0, None)] + ([BootKeep(0)] + ([BootSave(0, true)] + ([BootReady(0)] + [])));
            Possible(s, run) && After(s, run).reg.disk == [LOST_ENTRY]
    ensures Written([LOST_ENTRY]) && Kept([LOST_ENTRY]) == []
  {
    var s := Start(3, [], [PATHLESS_MODEL], 0);
    LostEntrySteps(s);
    var s1 := Do(s, BootTry(0, None));
    var s2 := Do(s1, BootKeep(0));
    LostEntrySaved(s2);
    var s3 := Do(s2, BootSave(0, true));
    RunOne(s3, BootReady(0), []);
    RunOne(s2, BootSave(0, true), [BootReady(0)] + []);
    RunOne(s1, BootKeep(0), [BootSave(0, true)] + ([BootReady(0)] + []));
    RunOne(s, BootTry(0, None), [BootKeep(0)] + ([BootSave(0, true)] + ([BootReady(0)] + [])));
    assert [LOST_ENTRY][1..] == [];
  }
}

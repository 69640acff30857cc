/**
 * Boots during which the admin API is already called (docker/decision/server.py): `restore` runs in a thread of its own, and
 * a load that is committed before it is through saves the dictionary as it stands.
 */
module RegistryEarlyCalls {
  import opened Wrappers
  import opened DecisionRegistry
  import opened RegistryProtocol
  import opened RegistrySafety
  import opened RegistryTheorems
  import opened RegistryRecovery

  // ------------------------------------------------------------------------------------------
  // What restore still has to do
  // ------------------------------------------------------------------------------------------

  /** Nobody asks to unload a model, unless it is one of `gone`. */
  ghost predicate UnloadsOnly(run: seq<Action>, gone: set<string>) {
    forall i :: 0 <= i < |run| && run[i].StartUnload? ==> run[i].name in gone
  }

  predicate Mentions(todo: seq<Raw>, name: string) {
    exists i :: 0 <= i < |todo| && todo[i].Raw? && todo[i].name == name
  }

  predicate InFile(file: seq<FileEntry>, name: string) { exists i :: 0 <= i < |file| && file[i].name == name }

  /** A valid name among the entries `restore` was given: the file's, and any given at start. */
  predicate Wanted(entries: seq<Raw>, name: string) { NameOk(name) && Mentions(entries, name) }

  /** The entries `restore` is not through with: the one it is at, and those behind it. */
  function Todo(pc: Pc): seq<Raw> {
    match pc
    case BootNext(todo, _) => todo
    case BootFailed(e, todo, _) => [e] + todo
    case Reserving(_, _, _, _, _, caller) => if caller.Boot? then [caller.entry] + caller.todo else []
    case Making(_, _, _, caller) => if caller.Boot? then [caller.entry] + caller.todo else []
    case _ => []
  }

  /** The names it has met. */
  function Seen(pc: Pc): set<string> {
    match pc
    case BootNext(_, seen) => seen
    case BootFailed(_, _, seen) => seen
    case Reserving(_, _, _, _, _, caller) => if caller.Boot? then caller.seen else {}
    case Making(_, _, _, caller) => if caller.Boot? then caller.seen else {}
    case _ => {}
  }

  /** The entry it is at. */
  predicate IsAt(pc: Pc, name: string) { !pc.BootNext? && Todo(pc) != [] && Todo(pc)[0].Raw? && Todo(pc)[0].name == name }

  /** A load of `restore` is of the entry it is at. */
  predicate LoadsEntry(pc: Pc) {
    Loads(pc) && pc.caller.Boot? ==> pc.caller.entry.Raw? && pc.caller.entry.name == pc.name
  }

  /**
   * But for those in `gone`, every wanted name is in the dictionary or still to be restored, and every name met is in
   * the dictionary or the current one.
   */
  ghost predicate Remembers(s: State, entries: seq<Raw>, gone: set<string>) {
    && s.threads != [] && LoadsEntry(s.threads[0])
    && (forall name :: Wanted(entries, name) && name !in gone ==> Has(s.reg.models, name) || Mentions(Todo(s.threads[0]), name))
    && (forall name :: name in Seen(s.threads[0]) && NameOk(name) && name !in gone ==>
          Has(s.reg.models, name) || IsAt(s.threads[0], name))
  }

  // ------------------------------------------------------------------------------------------
  // Every step keeps it
  // ------------------------------------------------------------------------------------------

  lemma PutHas(d: seq<Slot>, name: string, id: nat, other: string)
    ensures Has(Put(d, name, id), other) <==> other == name || Has(d, other)
  {
    HasIffMember(d, name);
    HasIffMember(d, other);
    HasIffMember(Put(d, name, id), other);
    var i := IndexOf(d, name);
    if i < |d| {
      assert Put(d, name, id)[i].name == name;
      if k :| 0 <= k < |d| && d[k].name == other { assert Put(d, name, id)[k].name == other; }
    } else {
      assert Put(d, name, id)[|d|].name == name;
      if k :| 0 <= k < |d| && d[k].name == other { assert Put(d, name, id)[k].name == other; }
    }
  }

  lemma DropHas(d: seq<Slot>, name: string, other: string)
    requires other != name
    ensures Has(Drop(d, name), other) <==> Has(d, other)
  {
    HasIffMember(d, other);
    HasIffMember(Drop(d, name), other);
    var i, less := IndexOf(d, name), Drop(d, name);
    if i < |d| {
      if k :| 0 <= k < |d| && d[k].name == other { assert less[if k < i then k else k - 1].name == other; }
      if k :| 0 <= k < |less| && less[k].name == other { assert d[if k < i then k else k + 1].name == other; }
    }
  }

  /** Only a name that is unloaded leaves the dictionary. */
  lemma NamesStay(s: State, a: Action, name: string)
    requires IdsKnown(s.reg.models, s.reg.heap) && Enabled(s, a) && Has(s.reg.models, name)
    requires a.StartUnload? ==> a.name != name
    ensures Has(Do(s, a).reg.models, name)
  {
    if a.CommitLoad? {
      var pc := s.threads[a.t];
      if pc.id < |s.reg.heap| { PutHas(s.reg.models, pc.name, pc.id, name); }
    } else if a.StartUnload? {
      DropHas(s.reg.models, a.name, name);
    } else if a.BootKeep? {
      KeptNamesStay(s, a.t, name);
    } else {
      SameModels(s, a);
    }
  }

  lemma KeptNamesStay(s: State, t: nat, name: string)
    requires Enabled(s, BootKeep(t)) && IdsKnown(s.reg.models, s.reg.heap) && Has(s.reg.models, name)
    ensures Has(Do(s, BootKeep(t)).reg.models, name)
  {
    var d, d' := s.reg.models, Do(s, BootKeep(t)).reg.models;
    HasIffMember(d, name);
    HasIffMember(d', name);
    var k :| 0 <= k < |d| && d[k].name == name;
    assert d'[k].name == name;
  }

  lemma SameModels(s: State, a: Action)
    requires IdsKnown(s.reg.models, s.reg.heap) && Enabled(s, a)
    requires !a.StartUnload? && !a.CommitLoad? && !a.BootKeep?
    ensures Do(s, a).reg.models == s.reg.models
  {
  }

  /** Nothing is lost when no name leaves the dictionary and `restore` has what it had to do. */
  lemma StillRemembers(s: State, s': State, entries: seq<Raw>, gone: set<string>)
    requires Remembers(s, entries, gone) && s'.threads != [] && LoadsEntry(s'.threads[0])
    requires forall name :: name !in gone && Has(s.reg.models, name) ==> Has(s'.reg.models, name)
    requires forall name :: name !in gone && NameOk(name) && Mentions(Todo(s.threads[0]), name) ==>
               Has(s'.reg.models, name) || Mentions(Todo(s'.threads[0]), name)
    requires forall name :: name !in gone && name in Seen(s'.threads[0]) && NameOk(name) ==>
               Has(s'.reg.models, name) || IsAt(s'.threads[0], name)
    ensures Remembers(s', entries, gone)
  {
  }

  lemma OthersRemember(s: State, a: Action, entries: seq<Raw>, gone: set<string>)
    requires Inv(s) && Remembers(s, entries, gone) && Enabled(s, a) && a.t != 0
    requires a.StartUnload? ==> a.name in gone
    ensures Remembers(Do(s, a), entries, gone)
  {
    var s' := Do(s, a);
    OthersStay(s, a);
    forall name | name !in gone && Has(s.reg.models, name)
      ensures Has(s'.reg.models, name)
    {
      NamesStay(s, a, name);
    }
    StillRemembers(s, s', entries, gone);
  }

  lemma OthersStay(s: State, a: Action)
    requires IdsKnown(s.reg.models, s.reg.heap) && Enabled(s, a) && a.t != 0
    ensures |Do(s, a).threads| == |s.threads| && Do(s, a).threads[0] == s.threads[0]
  {
  }

  lemma TryShape(s: State, target: Option<string>)
    requires Enabled(s, BootTry(0, target)) && IdsKnown(s.reg.models, s.reg.heap)
    ensures var s' := Do(s, BootTry(0, target));
            var pc, pc' := s.threads[0], s'.threads[0];
            var e := pc.todo[0];
            && s'.reg.models == s.reg.models && |s'.threads| == |s.threads| && LoadsEntry(pc')
            && if e.Junk? || e.name in pc.seen then pc' == BootNext(pc.todo[1..], pc.seen)
               else !pc'.BootNext? && Todo(pc') == [e] + pc.todo[1..] && Seen(pc') == pc.seen + {e.name}
  {
  }

  /** An item without a name, or with one met before, is left behind. */
  lemma SkipRemembers(s: State, s': State, entries: seq<Raw>, gone: set<string>, e: Raw, todo: seq<Raw>, seen: set<string>)
    requires Remembers(s, entries, gone) && s.threads[0] == BootNext([e] + todo, seen)
    requires s'.threads != [] && s'.threads[0] == BootNext(todo, seen) && s'.reg.models == s.reg.models
    requires e.Junk? || e.name in seen
    ensures Remembers(s', entries, gone)
  {
    assert ([e] + todo)[1..] == todo;
    forall name | name !in gone && NameOk(name) && Mentions([e] + todo, name)
      ensures Has(s'.reg.models, name) || Mentions(todo, name)
    {
      MentionsStep([e] + todo, name);
    }
    StillRemembers(s, s', entries, gone);
  }

  /** The next entry becomes the current one. */
  lemma EnterRemembers(s: State, s': State, entries: seq<Raw>, gone: set<string>, e: Raw, todo: seq<Raw>, seen: set<string>)
    requires Remembers(s, entries, gone) && s.threads[0] == BootNext([e] + todo, seen) && e.Raw?
    requires s'.threads != [] && s'.reg.models == s.reg.models && LoadsEntry(s'.threads[0])
    requires !s'.threads[0].BootNext? && Todo(s'.threads[0]) == [e] + todo && Seen(s'.threads[0]) == seen + {e.name}
    ensures Remembers(s', entries, gone)
  {
    StillRemembers(s, s', entries, gone);
  }

  lemma TryRemembers(s: State, target: Option<string>, entries: seq<Raw>, gone: set<string>)
    requires Inv(s) && Remembers(s, entries, gone) && Enabled(s, BootTry(0, target))
    ensures Remembers(Do(s, BootTry(0, target)), entries, gone)
  {
    var pc, s' := s.threads[0], Do(s, BootTry(0, target));
    var e, todo := pc.todo[0], pc.todo[1..];
    TryShape(s, target);
    assert pc.todo == [e] + todo;
    if e.Junk? || e.name in pc.seen {
      SkipRemembers(s, s', entries, gone, e, todo, pc.seen);
    } else {
      EnterRemembers(s, s', entries, gone, e, todo, pc.seen);
    }
  }

  lemma MentionsStep(todo: seq<Raw>, name: string)
    requires todo != []
    ensures Mentions(todo, name) <==> (todo[0].Raw? && todo[0].name == name) || Mentions(todo[1..], name)
  {
    if i :| 0 <= i < |todo| && todo[i].Raw? && todo[i].name == name {
      if i > 0 { assert todo[1..][i - 1].name == name; }
    }
    if i :| 0 <= i < |todo[1..]| && todo[1..][i].Raw? && todo[1..][i].name == name { assert todo[i + 1].name == name; }
  }

  /** The entry `restore` is at is done with once its name is in the dictionary, or was never a valid one. */
  lemma DoneRemembers(s: State, s': State, entries: seq<Raw>, gone: set<string>, e: Raw, todo: seq<Raw>)
    requires Remembers(s, entries, gone) && Todo(s.threads[0]) == [e] + todo && !s.threads[0].BootNext?
    requires s'.threads != [] && s'.threads[0] == BootNext(todo, Seen(s.threads[0]))
    requires forall name :: Has(s.reg.models, name) ==> Has(s'.reg.models, name)
    requires e.Raw? && NameOk(e.name) ==> Has(s'.reg.models, e.name)
    ensures Remembers(s', entries, gone)
  {
    assert ([e] + todo)[1..] == todo;
    forall name | name !in gone && NameOk(name) && Mentions([e] + todo, name)
      ensures Has(s'.reg.models, name) || Mentions(todo, name)
    {
      MentionsStep([e] + todo, name);
    }
    StillRemembers(s, s', entries, gone);
  }

  lemma CommitRemembers(s: State, wrote: bool, entries: seq<Raw>, gone: set<string>)
    requires Inv(s) && Remembers(s, entries, gone) && Enabled(s, CommitLoad(0, wrote)) && s.threads[0].caller.Boot?
    ensures Remembers(Do(s, CommitLoad(0, wrote)), entries, gone)
  {
    var pc, s' := s.threads[0], Do(s, CommitLoad(0, wrote));
    assert ThreadInv(s.reg, 0, pc);
    forall name
      ensures Has(s'.reg.models, name) <==> name == pc.name || Has(s.reg.models, name)
    {
      PutHas(s.reg.models, pc.name, pc.id, name);
    }
    DoneRemembers(s, s', entries, gone, pc.caller.entry, pc.caller.todo);
  }

  lemma KeepRemembers(s: State, entries: seq<Raw>, gone: set<string>)
    requires Inv(s) && Remembers(s, entries, gone) && Enabled(s, BootKeep(0))
    ensures Remembers(Do(s, BootKeep(0)), entries, gone)
  {
    var pc, s' := s.threads[0], Do(s, BootKeep(0));
    forall name | Has(s.reg.models, name)
      ensures Has(s'.reg.models, name)
    {
      KeptNamesStay(s, 0, name);
    }
    if pc.entry.Raw? && NameOk(pc.entry.name) { PlacedHas(s.reg, Placeholder(pc.entry)); }
    DoneRemembers(s, s', entries, gone, pc.entry, pc.todo);
  }

  lemma PlacedHas(r: Reg, e: FileEntry)
    ensures Has(Place(r, e).models, e.name)
  {
    var d := Place(r, e).models;
    HasIffMember(d, e.name);
    if !Has(r.models, e.name) { assert d[|r.models|].name == e.name; }
  }

  /** The other steps of the restoring thread leave the dictionary and what it has to do alone. */
  lemma OwnStepShape(s: State, a: Action)
    requires IdsKnown(s.reg.models, s.reg.heap) && Enabled(s, a) && a.t == 0
    requires !a.BootTry? && !a.BootKeep? && !(a.CommitLoad? && s.threads[0].caller.Boot?)
    requires LoadsEntry(s.threads[0])
    ensures var pc, pc' := s.threads[0], Do(s, a).threads[0];
            && |Do(s, a).threads| == |s.threads| && LoadsEntry(pc')
            && Todo(pc') == Todo(pc) && Seen(pc') <= Seen(pc) && (pc'.BootNext? ==> pc.BootNext?)
  {
  }

  lemma OwnStepRemembers(s: State, a: Action, entries: seq<Raw>, gone: set<string>)
    requires Inv(s) && Remembers(s, entries, gone) && Enabled(s, a) && a.t == 0
    requires !a.BootTry? && !a.BootKeep? && !(a.CommitLoad? && s.threads[0].caller.Boot?)
    requires a.StartUnload? ==> a.name in gone
    ensures Remembers(Do(s, a), entries, gone)
  {
    var s' := Do(s, a);
    OwnStepShape(s, a);
    forall name | name !in gone && Has(s.reg.models, name)
      ensures Has(s'.reg.models, name)
    {
      NamesStay(s, a, name);
    }
    StillRemembers(s, s', entries, gone);
  }

  lemma StepRemembers(s: State, a: Action, entries: seq<Raw>, gone: set<string>)
    requires Inv(s) && Remembers(s, entries, gone) && Enabled(s, a)
    requires a.StartUnload? ==> a.name in gone
    ensures Remembers(Do(s, a), entries, gone)
  {
    if a.t != 0 {
      OthersRemember(s, a, entries, gone);
    } else if a.BootTry? {
      TryRemembers(s, a.target, entries, gone);
    } else if a.BootKeep? {
      KeepRemembers(s, entries, gone);
    } else if a.CommitLoad? && s.threads[0].caller.Boot? {
      CommitRemembers(s, a.wrote, entries, gone);
    } else {
      OwnStepRemembers(s, a, entries, gone);
    }
  }

  lemma {:induction false} RunRemembers(s: State, run: seq<Action>, entries: seq<Raw>, gone: set<string>)
    requires Inv(s) && Remembers(s, entries, gone) && Possible(s, run) && UnloadsOnly(run, gone)
    ensures Inv(After(s, run)) && Remembers(After(s, run), entries, gone)
    decreases |run|
  {
    if run != [] {
      StepInv(s, run[0]);
      StepRemembers(s, run[0], entries, gone);
      assert forall i :: 0 <= i < |run[1..]| ==> run[1..][i] == run[i + 1];
      RunRemembers(Do(s, run[0]), run[1..], entries, gone);
    }
  }

  /**
   * In every state of every run of a boot, each wanted name nobody unloads is in the dictionary or still to be restored.
   */
  lemma NothingIsSkipped(s: State, max: int, disk: seq<FileEntry>, entries: seq<Raw>, n: nat, run: seq<Action>, gone: set<string>)
    requires s == Start(max, disk, entries, n) && Possible(s, run) && UnloadsOnly(run, gone)
    ensures Inv(After(s, run)) && Remembers(After(s, run), entries, gone)
  {
    StartInv(max, disk, entries, n);
    RunRemembers(s, run, entries, gone);
  }

  /** A state of some boot on the entries, after any steps of any threads in which only names in `gone` are unloaded. */
  ghost predicate Reached(s: State, entries: seq<Raw>, gone: set<string>) {
    exists max: int, disk: seq<FileEntry>, n: nat, run: seq<Action> ::
      Possible(Start(max, disk, entries, n), run) && UnloadsOnly(run, gone) && s == After(Start(max, disk, entries, n), run)
  }

  lemma ReachedRemembers(s: State, entries: seq<Raw>, gone: set<string>)
    requires Reached(s, entries, gone)
    ensures Inv(s) && Remembers(s, entries, gone)
  {
    var max: int, disk: seq<FileEntry>, n: nat, run: seq<Action> :|
      Possible(Start(max, disk, entries, n), run) && UnloadsOnly(run, gone) && s == After(Start(max, disk, entries, n), run);
    NothingIsSkipped(Start(max, disk, entries, n), max, disk, entries, n, run, gone);
  }

  // ------------------------------------------------------------------------------------------
  // What an admin call saves
  // ------------------------------------------------------------------------------------------

  lemma EntriesHave(s: State, name: string)
    requires Inv(s)
    ensures InFile(Entries(s.reg.models, s.reg.heap), name) <==> Has(s.reg.models, name)
  {
    var file := Entries(s.reg.models, s.reg.heap);
    HasIffMember(s.reg.models, name);
    assert forall i :: 0 <= i < |file| ==> SlotOk(s.reg.models[i], s.reg.heap) && file[i].name == s.reg.models[i].name;
  }

  /** The names in the file after a written commit of an admin load. */
  lemma CommitSaves(s: State, t: nat, name: string)
    requires Inv(s) && Enabled(s, CommitLoad(t, true)) && s.threads[t].caller.Admin?
    ensures InFile(Do(s, CommitLoad(t, true)).reg.disk, name) <==> name == s.threads[t].name || Has(s.reg.models, name)
  {
    var pc, a := s.threads[t], CommitLoad(t, true);
    assert ThreadInv(s.reg, t, pc);
    StepInv(s, a);
    EntriesHave(Do(s, a), name);
    PutHas(s.reg.models, pc.name, pc.id, name);
  }

  /** The other names in the file after a written unload. */
  lemma UnloadSaves(s: State, t: nat, unloaded: string, name: string)
    requires Inv(s) && Enabled(s, StartUnload(t, unloaded, true)) && name != unloaded
    requires unloaded !in s.reg.loading && Has(s.reg.models, unloaded)
    ensures InFile(Do(s, StartUnload(t, unloaded, true)).reg.disk, name) <==> Has(s.reg.models, name)
  {
    var a := StartUnload(t, unloaded, true);
    StepInv(s, a);
    EntriesHave(Do(s, a), name);
    DropHas(s.reg.models, unloaded, name);
  }

  /**
   * At any moment of a boot, a written commit of an admin load leaves a file with every wanted name nobody unloads if and
   * only if each of them still to be restored is in the dictionary already, or is the one that was loaded.
   */
  lemma EarlyCommitForgetsNothingIff(s: State, entries: seq<Raw>, gone: set<string>, t: nat)
    requires Reached(s, entries, gone) && Enabled(s, CommitLoad(t, true)) && s.threads[t].caller.Admin?
    ensures IdsKnown(s.reg.models, s.reg.heap)
    ensures (forall name :: Wanted(entries, name) && name !in gone ==> InFile(Do(s, CommitLoad(t, true)).reg.disk, name))
            <==> forall name :: Wanted(entries, name) && name !in gone && Mentions(Todo(s.threads[0]), name) ==>
                   Has(s.reg.models, name) || name == s.threads[t].name
  {
    ReachedRemembers(s, entries, gone);
    forall name
      ensures InFile(Do(s, CommitLoad(t, true)).reg.disk, name) <==> name == s.threads[t].name || Has(s.reg.models, name)
    {
      CommitSaves(s, t, name);
    }
  }

  /** The same of a written unload, with the unloaded name among those that are gone. */
  lemma EarlyUnloadForgetsNothingIff(s: State, entries: seq<Raw>, gone: set<string>, t: nat, unloaded: string)
    requires Reached(s, entries, gone) && Enabled(s, StartUnload(t, unloaded, true)) && unloaded in gone
    requires unloaded !in s.reg.loading && Has(s.reg.models, unloaded)
    ensures IdsKnown(s.reg.models, s.reg.heap)
    ensures var file := Do(s, StartUnload(t, unloaded, true)).reg.disk;
            (forall name :: Wanted(entries, name) && name !in gone ==> InFile(file, name))
            <==> forall name :: Wanted(entries, name) && name !in gone && Mentions(Todo(s.threads[0]), name) ==>
                   Has(s.reg.models, name)
  {
    ReachedRemembers(s, entries, gone);
    forall name | name !in gone
      ensures InFile(Do(s, StartUnload(t, unloaded, true)).reg.disk, name) <==> Has(s.reg.models, name)
    {
      UnloadSaves(s, t, unloaded, name);
    }
  }

  /** Once `restore` has reached its own save, no wanted name nobody unloads is missing, whatever was loaded meanwhile. */
  lemma SettledBootHasAll(s: State, entries: seq<Raw>, gone: set<string>)
    requires Reached(s, entries, gone) && s.reg.settled
    ensures forall name :: Wanted(entries, name) && name !in gone ==> Has(s.reg.models, name)
    ensures s.reg.written ==> forall name :: Wanted(entries, name) && name !in gone ==> InFile(s.reg.disk, name)
  {
    ReachedRemembers(s, entries, gone);
    assert ThreadInv(s.reg, 0, s.threads[0]);
    assert Todo(s.threads[0]) == [];
    forall name | Wanted(entries, name) && name !in gone
      ensures s.reg.written ==> InFile(s.reg.disk, name)
    {
      EntriesHave(s, name);
    }
  }

  /** For a boot on a file the server wrote, the wanted names are those of its entries with a path. */
  lemma WantedOfFile(file: seq<FileEntry>, name: string)
    requires Written(file)
    ensures Wanted(ToRestore(Kept(file)), name) <==> InFile(Kept(file), name)
  {
    KeptIsWritten(file);
    var todo := ToRestore(Kept(file));
    assert forall i :: 0 <= i < |todo| ==> todo[i] == Remembered(Kept(file)[i]);
    if i :| 0 <= i < |Kept(file)| && Kept(file)[i].name == name { assert todo[i].name == name; }
  }

  // ------------------------------------------------------------------------------------------
  // A boot that forgets
  // ------------------------------------------------------------------------------------------

  const DEPLOYED := [FileEntry(['a'], "p", false, 4096)]
  const NEWCOMER := FileEntry(['c'], "q", false, 4096)

  lemma ShortNamesAreOk()
    ensures NameOk(['a']) && NameOk(['c'])
  {
    assert NameChar('a') && NameChar('c');
    assert forall i :: 0 <= i < |['a']| ==> ['a'][i] == 'a';
    assert forall i :: 0 <= i < |['c']| ==> ['c'][i] == 'c';
  }

  /** An admin load up to its commit, before `restore` has done anything. */
  lemma EarlyLoadSteps(s: State)
    requires s.reg == Reg(3, [], [], map[], DEPLOYED, false, false, false) && |s.threads| == 2 && s.threads[1] == Idle
    ensures Enabled(s, StartLoad(1, ['c'], false, 4096, Some("q")))
    ensures var s1 := Do(s, StartLoad(1, ['c'], false, 4096, Some("q")));
            && IdsKnown(s1.reg.models, s1.reg.heap) && Enabled(s1, Probe(1, true))
            && var s2 := Do(s1, Probe(1, true));
            && s2.reg.heap == [Served(['c'], "q", false, 4096, false, None, Fresh(1))] && s2.reg.models == []
            && s2.reg.disk == DEPLOYED && |s2.threads| == 2 && s2.threads[1] == Making(Loading, ['c'], 0, Admin)
  {
    ShortNamesAreOk();
  }

  lemma EarlyLoadCommits(s: State)
    requires s.reg.heap == [Served(['c'], "q", false, 4096, false, None, Fresh(1))] && s.reg.models == []
    requires |s.threads| == 2 && s.threads[1] == Making(Loading, ['c'], 0, Admin)
    ensures IdsKnown(s.reg.models, s.reg.heap) && Enabled(s, LoaderReturns(1, true))
    ensures var s1 := Do(s, LoaderReturns(1, true));
            && IdsKnown(s1.reg.models, s1.reg.heap) && Enabled(s1, CommitLoad(1, true))
            && Do(s1, CommitLoad(1, true)).reg.disk == [NEWCOMER]
  {
    assert IndexOf([], ['c']) == 0;
    var s1 := Do(s, LoaderReturns(1, true));
    assert s1.reg.heap[0] == Served(['c'], "q", false, 4096, true, None, Fresh(1));
    var s2 := Do(s1, CommitLoad(1, true));
    assert s2.reg.models == [Slot(['c'], 0)];
    assert Describe(s2.reg.heap[0]) == NEWCOMER;
  }

  /**
   * A model loaded by an admin before `restore` is through is saved without the models still to be restored:
   * if the server dies then, the file has lost them.
   */
  lemma EarlyLoadForgets()
    ensures Written(DEPLOYED) && HasPaths(DEPLOYED) && Kept(DEPLOYED) == DEPLOYED
    ensures var s := Start(3, DEPLOYED, ToRestore(Kept(DEPLOYED)), 1);
            var run := [StartLoad(1, ['c'], false, 4096, Some("q"))]
                       + ([Probe(1, true)] + ([LoaderReturns(1, true)] + ([CommitLoad(1, true)] + [])));
            Possible(s, run) && After(s, run).reg.disk == [NEWCOMER]
  {
    ShortNamesAreOk();
    assert DEPLOYED[1..] == [];
    var s := Start(3, DEPLOYED, ToRestore(Kept(DEPLOYED)), 1);
    EarlyLoadSteps(s);
    var s1 := Do(s, StartLoad(1, ['c'], false, 4096, Some("q")));
    var s2 := Do(s1, Probe(1, true));
    EarlyLoadCommits(s2);
    var s3 := Do(s2, LoaderReturns(1, true));
    RunOne(s3, CommitLoad(1, true), []);
    RunOne(s2, LoaderReturns(1, true), [CommitLoad(1, true)] + []);
    RunOne(s1, Probe(1, true), [LoaderReturns(1, true)] + ([CommitLoad(1, true)] + []));
    RunOne(s, StartLoad(1, ['c'], false, 4096, Some("q")),
           [Probe(1, true)] + ([LoaderReturns(1, true)] + ([CommitLoad(1, true)] + [])));
  }
}

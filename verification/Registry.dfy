/**
 * The decision server's model registry (docker/decision/server.py): its dictionary of served
 * models, the set of names being loaded, the state file, and each block it runs under its mutex.
 *
 * The blocks are given twice: as functions on the value `Reg`, which the protocol of
 * RegistryProtocol.dfy interleaves, and as methods of the class `Registry`, proved against them.
 */
module DecisionRegistry {
  import opened Wrappers

  // ------------------------------------------------------------------------------------------
  // Entities
  // ------------------------------------------------------------------------------------------

  /** Who can reach a `Served` object: the load that creates it, the dictionary, or only old readers. */
  datatype Stage = Fresh(loader: nat) | Live | Gone

  /**
   * One `Served` object. `loaded` is `model is not None`, `holder` the thread that holds its lock.
   * `stage` is an auxiliary variable: no block reads it.
   */
  datatype Served = Served(
    name: string, path: string, in4: bool, msl: int,
    loaded: bool, holder: Option<nat>, stage: Stage)

  /** One key of the `models` dictionary; `id` is the object's place in the object table. */
  datatype Slot = Slot(name: string, id: nat)

  /** What `_persist` writes for one model. */
  datatype FileEntry = FileEntry(name: string, path: string, in4: bool, msl: int)

  /**
   * The registry. `models` keeps the insertion order of a Python dict; `heap` is the table of all
   * `Served` objects ever made; `loading` maps each reserved name to the thread that reserved it
   * (the source keeps only the names, so the owner is auxiliary). `disk` is the state file,
   * `written` whether the latest attempt to write it succeeded, `settled` whether `restore` has
   * reached its final write.
   */
  datatype Reg = Reg(
    max: int, models: seq<Slot>, heap: seq<Served>, loading: map<string, nat>,
    disk: seq<FileEntry>, written: bool, settled: bool, ready: bool)

  /** `entry.get("path")`: text, another JSON value (with its `str`), or no such key. */
  datatype RawPath = PathText(text: string) | PathOther(str: string, truthy: bool) | PathMissing

  /** `entry.get("max_seq_length", 4096)`: a number, digits, or anything else. */
  datatype RawMsl = MslNumber(n: int) | MslDigits(value: nat) | MslOther

  /** One item `restore` meets: an object with a text name, or something it skips. */
  datatype Raw = Junk | Raw(name: string, path: RawPath, in4: bool, msl: RawMsl)

  /** `msl` as `restore` reads it: `isdigit` refuses a sign, so a negative number becomes 4096. */
  function ReadMsl(m: RawMsl): nat {
    match m
    case MslNumber(n) => if n >= 0 then n else 4096
    case MslDigits(n) => n
    case MslOther => 4096
  }

  /** `str(entry.get("path", ""))`. */
  function PathStr(p: RawPath): string {
    match p
    case PathText(t) => t
    case PathOther(s, _) => s
    case PathMissing => ""
  }

  /** The placeholder `restore` makes for an entry that did not load. */
  function Placeholder(e: Raw): FileEntry
    requires e.Raw?
  {
    FileEntry(e.name, PathStr(e.path), e.in4, ReadMsl(e.msl))
  }

  /** What the file says of one model, as `restore` reads it back. */
  function Remembered(e: FileEntry): Raw { Raw(e.name, PathText(e.path), e.in4, MslNumber(e.msl)) }

  function ToRestore(entries: seq<FileEntry>): (todo: seq<Raw>)
    ensures |todo| == |entries|
  {
    seq(|entries|, i requires 0 <= i < |entries| => Remembered(entries[i]))
  }

  /** `entries_from_disk` on a file `_persist` wrote: an entry without a path is dropped. */
  function Kept(file: seq<FileEntry>): (kept: seq<FileEntry>)
    ensures |kept| <= |file|
  {
    if file == [] then []
    else if file[0].name != "" && file[0].path != "" then [file[0]] + Kept(file[1..])
    else Kept(file[1..])
  }

  /**
   * The state file: missing, not readable as JSON, a JSON value that cannot be iterated over (a number, true, false or
   * null), or a list of items; a text or an object holds no item that is an object.
   */
  datatype StateFile = NoFile | Unreadable | Scalar | Listed(items: seq<Raw>)

  predicate Truthy(p: RawPath) {
    match p
    case PathText(t) => t != ""
    case PathOther(_, truthy) => truthy
    case PathMissing => false
  }

  /** `isinstance(e, dict) and e.get("name") and e.get("path")`; a name that is no text is skipped later anyway. */
  predicate IsUsable(e: Raw) { e.Raw? && e.name != "" && Truthy(e.path) }

  function Usable(items: seq<Raw>): seq<Raw> {
    if items == [] then [] else (if IsUsable(items[0]) then [items[0]] else []) + Usable(items[1..])
  }

  /** An item is read exactly if it is an object with a name and a path, neither of them empty. */
  lemma {:induction false} UsableIff(items: seq<Raw>, e: Raw)
    ensures e in Usable(items) <==>
              e in items && e.Raw? && e.name != "" && e.path != PathMissing && e.path != PathText("")
              && (e.path.PathOther? ==> e.path.truthy)
  {
    if items != [] {
      UsableIff(items[1..], e);
      assert items == [items[0]] + items[1..];
    }
  }

  /** What `entries_from_disk` returns; nothing when it throws, which only a scalar makes it do. */
  function EntriesFromDisk(file: StateFile): Option<seq<Raw>> {
    match file
    case NoFile => Some([])
    case Unreadable => Some([])
    case Scalar => None
    case Listed(items) => Some(Usable(items))
  }

  /** A file the server wrote is read back as its entries with a path. */
  lemma {:induction false} WrittenIsReadBack(file: seq<FileEntry>)
    ensures EntriesFromDisk(Listed(ToRestore(file))) == Some(ToRestore(Kept(file)))
  {
    if file != [] {
      WrittenIsReadBack(file[1..]);
      assert ToRestore(file)[1..] == ToRestore(file[1..]);
      if file[0].name != "" && file[0].path != "" {
        assert ToRestore(Kept(file)) == [Remembered(file[0])] + ToRestore(Kept(file[1..]));
      } else {
        assert Usable(ToRestore(file)) == [] + Usable(ToRestore(file[1..])) == Usable(ToRestore(file[1..]));
        assert ToRestore(Kept(file)) == ToRestore(Kept(file[1..]));
      }
    }
  }

  predicate NameChar(c: char) {
    'A' <= c <= 'Z' || 'a' <= c <= 'z' || '0' <= c <= '9' || c == '.' || c == '_' || c == '-'
  }

  /** What `NAME_RE` looks at: in Python `$` also matches just before one final newline. */
  function NameCore(name: string): string {
    if |name| > 0 && name[|name| - 1] == '\n' then name[..|name| - 1] else name
  }

  /** `NAME_RE.match(name)`. */
  predicate NameOk(name: string) {
    var core := NameCore(name);
    1 <= |core| <= 64 && forall i :: 0 <= i < |core| ==> NameChar(core[i])
  }

  predicate MslOk(msl: int) { 256 <= msl <= 65536 }

  // ------------------------------------------------------------------------------------------
  // The dictionary
  // ------------------------------------------------------------------------------------------

  /** Where `name` is in the dictionary; its length when it is absent. */
  function IndexOf(d: seq<Slot>, name: string): (i: nat)
    ensures i <= |d|
    ensures i < |d| ==> d[i].name == name
    ensures forall j :: 0 <= j < i ==> d[j].name != name
  {
    if d == [] then 0
    else if d[0].name == name then 0
    else 1 + IndexOf(d[1..], name)
  }

  predicate Has(d: seq<Slot>, name: string) { IndexOf(d, name) < |d| }

  function Get(d: seq<Slot>, name: string): Option<nat> {
    var i := IndexOf(d, name);
    if i < |d| then Some(d[i].id) else None
  }

  /** `d[name] = served`: an existing key keeps its place, a new one goes last. */
  function Put(d: seq<Slot>, name: string, id: nat): seq<Slot> {
    var i := IndexOf(d, name);
    if i < |d| then d[i := Slot(name, id)] else d + [Slot(name, id)]
  }

  /** `d.pop(name)`. */
  function Drop(d: seq<Slot>, name: string): seq<Slot> {
    var i := IndexOf(d, name);
    if i < |d| then d[..i] + d[i + 1..] else d
  }

  predicate IsLoaded(h: seq<Served>, id: nat) { id < |h| && h[id].loaded }

  /** `_loaded_count`. */
  function LoadedCount(d: seq<Slot>, h: seq<Served>): nat {
    if d == [] then 0
    else LoadedCount(d[..|d| - 1], h) + (if IsLoaded(h, d[|d| - 1].id) then 1 else 0)
  }

  function Describe(s: Served): FileEntry { FileEntry(s.name, s.path, s.in4, s.msl) }

  predicate IdsKnown(d: seq<Slot>, h: seq<Served>) { forall i :: 0 <= i < |d| ==> d[i].id < |h| }

  /** The list `_persist` writes. */
  function Entries(d: seq<Slot>, h: seq<Served>): seq<FileEntry>
    requires IdsKnown(d, h)
  {
    seq(|d|, i requires 0 <= i < |d| => Describe(h[d[i].id]))
  }

  // ------------------------------------------------------------------------------------------
  // The blocks
  // ------------------------------------------------------------------------------------------

  predicate Refuses(r: Reg, name: string) {
    || name in r.loading
    || (Has(r.models, name) && IsLoaded(r.heap, r.models[IndexOf(r.models, name)].id))
    || LoadedCount(r.models, r.heap) + |r.loading| >= r.max
  }

  /** The reservation block of `load`. */
  function Reserve(r: Reg, name: string, thread: nat): Option<Reg> {
    if Refuses(r, name) then None else Some(r.(loading := r.loading[name := thread]))
  }

  /** `_loading.discard(name)`. */
  function Discard(r: Reg, name: string): Reg { r.(loading := r.loading - {name}) }

  /** `_persist`: `wrote` says whether the write went through; when it does not, the file stays. */
  function Persist(r: Reg, wrote: bool): Reg
    requires IdsKnown(r.models, r.heap)
  {
    r.(disk := if wrote then Entries(r.models, r.heap) else r.disk, written := wrote)
  }

  /** The stage of whatever `name` maps to, before another object takes its place. */
  function Retire(d: seq<Slot>, h: seq<Served>, name: string): (h': seq<Served>)
    ensures |h'| == |h|
  {
    var i := IndexOf(d, name);
    if i < |d| && d[i].id < |h| then h[d[i].id := h[d[i].id].(stage := Gone)] else h
  }

  /** The commit block of `load`. */
  function Commit(r: Reg, name: string, id: nat, persist: bool, wrote: bool): Reg
    requires id < |r.heap| && IdsKnown(r.models, r.heap)
  {
    var h := Retire(r.models, r.heap, name);
    var r' := r.(loading := r.loading - {name},
                 models := Put(r.models, name, id),
                 heap := h[id := h[id].(stage := Live)]);
    if persist then Persist(r', wrote) else r'
  }

  /** The block of `unload` for a served name that is not loading. */
  function Pop(r: Reg, name: string, wrote: bool): Reg
    requires Has(r.models, name) && IdsKnown(r.models, r.heap)
  {
    Persist(r.(heap := Retire(r.models, r.heap, name), models := Drop(r.models, name)), wrote)
  }

  /** `models.setdefault(name, failed)` of `restore`, with the placeholder made just before it. */
  function Place(r: Reg, e: FileEntry): Reg {
    var taken := Has(r.models, e.name);
    var failed := Served(e.name, e.path, e.in4, e.msl, false, None, if taken then Gone else Live);
    r.(heap := r.heap + [failed],
       models := if taken then r.models else r.models + [Slot(e.name, |r.heap|)])
  }

  // ------------------------------------------------------------------------------------------
  // Facts about the dictionary
  // ------------------------------------------------------------------------------------------

  lemma {:induction false} LoadedCountAppend(d: seq<Slot>, e: seq<Slot>, h: seq<Served>)
    ensures LoadedCount(d + e, h) == LoadedCount(d, h) + LoadedCount(e, h)
  {
    if e == [] {
      assert d + e == d;
    } else {
      assert (d + e)[..|d + e| - 1] == d + e[..|e| - 1];
      LoadedCountAppend(d, e[..|e| - 1], h);
    }
  }

  lemma {:induction false} LoadedCountFrame(d: seq<Slot>, h: seq<Served>, h': seq<Served>)
    requires forall i :: 0 <= i < |d| ==> IsLoaded(h, d[i].id) == IsLoaded(h', d[i].id)
    ensures LoadedCount(d, h) == LoadedCount(d, h')
  {
    if d != [] {
      LoadedCountFrame(d[..|d| - 1], h, h');
    }
  }

  lemma LoadedCountOne(x: Slot, h: seq<Served>)
    ensures LoadedCount([x], h) == if IsLoaded(h, x.id) then 1 else 0
  {
    assert [x][..0] == [];
  }

  lemma LoadedCountPut(d: seq<Slot>, name: string, id: nat, h: seq<Served>)
    ensures var i := IndexOf(d, name);
            LoadedCount(Put(d, name, id), h) ==
              LoadedCount(d, h) + (if IsLoaded(h, id) then 1 else 0)
              - (if i < |d| && IsLoaded(h, d[i].id) then 1 else 0)
  {
    var i := IndexOf(d, name);
    LoadedCountOne(Slot(name, id), h);
    if i < |d| {
      LoadedCountOne(d[i], h);
      assert d == d[..i] + ([d[i]] + d[i + 1..]);
      assert Put(d, name, id) == d[..i] + ([Slot(name, id)] + d[i + 1..]);
      LoadedCountAppend([d[i]], d[i + 1..], h);
      LoadedCountAppend([Slot(name, id)], d[i + 1..], h);
      LoadedCountAppend(d[..i], [d[i]] + d[i + 1..], h);
      LoadedCountAppend(d[..i], [Slot(name, id)] + d[i + 1..], h);
    } else {
      LoadedCountAppend(d, [Slot(name, id)], h);
    }
  }

  lemma LoadedCountDrop(d: seq<Slot>, name: string, h: seq<Served>)
    ensures var i := IndexOf(d, name);
            LoadedCount(Drop(d, name), h) == LoadedCount(d, h) - (if i < |d| && IsLoaded(h, d[i].id) then 1 else 0)
  {
    var i := IndexOf(d, name);
    if i < |d| {
      var before, x, after := d[..i], d[i], d[i + 1..];
      assert d == before + ([x] + after);
      LoadedCountOne(x, h);
      LoadedCountAppend([x], after, h);
      LoadedCountAppend(before, [x] + after, h);
      LoadedCountAppend(before, after, h);
    }
  }

  lemma HasIffMember(d: seq<Slot>, name: string)
    ensures Has(d, name) <==> exists i :: 0 <= i < |d| && d[i].name == name
  {
  }

  // ------------------------------------------------------------------------------------------
  // The class
  // ------------------------------------------------------------------------------------------

  /** The registry object: the fields the blocks update in place, and the blocks as methods. */
  class Registry {
    const maxModels: int
    var models: seq<Slot>
    var heap: seq<Served>
    var loading: map<string, nat>
    var disk: seq<FileEntry>
    var written: bool
    var settled: bool
    var ready: bool

    constructor (maxModels: int, disk: seq<FileEntry>)
      ensures View() == Reg(maxModels, [], [], map[], disk, false, false, false)
    {
      this.maxModels := maxModels;
      this.disk := disk;
      models, heap, loading := [], [], map[];
      written, settled, ready := false, false, false;
    }

    /** The registry as a value. */
    function View(): Reg
      reads this
    {
      Reg(maxModels, models, heap, loading, disk, written, settled, ready)
    }

    /** `_loaded_count`. */
    method CountLoaded() returns (count: nat)
      ensures count == LoadedCount(models, heap)
    {
      count := 0;
      for i := 0 to |models|
        invariant count == LoadedCount(models[..i], heap)
      {
        assert models[..i + 1][..i] == models[..i];
        if IsLoaded(heap, models[i].id) {
          count := count + 1;
        }
      }
      assert models[..|models|] == models;
    }

    /** `_persist`. */
    method Save(wrote: bool)
      requires IdsKnown(models, heap)
      modifies this`disk, this`written
      ensures View() == Persist(old(View()), wrote)
    {
      var entries: seq<FileEntry> := [];
      for i := 0 to |models|
        invariant |entries| == i
        invariant forall j :: 0 <= j < i ==> entries[j] == Describe(heap[models[j].id])
        invariant disk == old(disk) && written == old(written)
      {
        entries := entries + [Describe(heap[models[i].id])];
      }
      assert entries == Entries(models, heap);
      if wrote {
        disk := entries;
      }
      written := wrote;
    }

    /** `entries_from_disk`, whatever the state file holds. */
    static method ReadFile(file: StateFile) returns (r: Option<seq<Raw>>)
      ensures r == EntriesFromDisk(file)
      ensures (r.None? <==> file.Scalar?) && (file.NoFile? || file.Unreadable? ==> r == Some([]))
    {
      if file.Scalar? { return None; }
      if !file.Listed? { return Some([]); }
      var todo: seq<Raw> := [];
      var items := file.items;
      for i := 0 to |items|
        invariant todo + Usable(items[i..]) == Usable(items)
      {
        assert items[i..][1..] == items[i + 1..];
        if IsUsable(items[i]) { todo := todo + [items[i]]; }
      }
      assert items[|items|..] == [] && todo + [] == todo;
      r := Some(todo);
    }

    /** The first block of `load`: refuse, or reserve the name. */
    method TryReserve(name: string, thread: nat) returns (ok: bool)
      modifies this`loading
      ensures ok <==> Reserve(old(View()), name, thread).Some?
      ensures View() == if ok then Reserve(old(View()), name, thread).value else old(View())
    {
      var i := IndexOf(models, name);
      if name in loading || (i < |models| && IsLoaded(heap, models[i].id)) {
        return false;
      }
      var count := CountLoaded();
      if count + |loading| >= maxModels {
        return false;
      }
      loading := loading[name := thread];
      return true;
    }

    /** The block every failed `load` leaves through. */
    method GiveBack(name: string)
      modifies this`loading
      ensures View() == Discard(old(View()), name)
    {
      loading := loading - {name};
    }

    /** The last block of a `load` that worked. */
    method Register(name: string, id: nat, persist: bool, wrote: bool)
      requires id < |heap| && IdsKnown(models, heap)
      modifies this`loading, this`models, this`heap, this`disk, this`written
      ensures View() == Commit(old(View()), name, id, persist, wrote)
    {
      loading := loading - {name};
      heap := Retire(models, heap, name);
      heap := heap[id := heap[id].(stage := Live)];
      var i := IndexOf(models, name);
      if i < |models| {
        models := models[i := Slot(name, id)];
      } else {
        models := models + [Slot(name, id)];
      }
      if persist {
        Save(wrote);
      }
    }

    /** The block of `unload`: 409 while loading, 404 when absent, else the popped object. */
    method TryPop(name: string, wrote: bool) returns (r: Result<nat, int>)
      requires IdsKnown(models, heap)
      modifies this`models, this`heap, this`disk, this`written
      ensures name in old(loading) ==> r == Err(409) && View() == old(View())
      ensures name !in old(loading) && !Has(old(models), name) ==> r == Err(404) && View() == old(View())
      ensures name !in old(loading) && Has(old(models), name) ==>
                r.Ok? && Get(old(models), name) == Some(r.value) && View() == Pop(old(View()), name, wrote)
    {
      if name in loading {
        return Err(409);
      }
      var i := IndexOf(models, name);
      if i == |models| {
        return Err(404);
      }
      r := Ok(models[i].id);
      heap := Retire(models, heap, name);
      models := models[..i] + models[i + 1..];
      Save(wrote);
    }

    /** The block of `restore` that keeps a failed entry visible. */
    method KeepFailed(e: FileEntry)
      modifies this`models, this`heap
      ensures View() == Place(old(View()), e)
    {
      var taken := Has(models, e.name);
      heap := heap + [Served(e.name, e.path, e.in4, e.msl, false, None, if taken then Gone else Live)];
      if !taken {
        models := models + [Slot(e.name, |heap| - 1)];
      }
    }
  }
}

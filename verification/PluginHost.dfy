/**
The plugin manager: a vector of slots that is only ever appended to or emptied slot by slot, and
an index from names to slots.  Dropping a native backend that has a VTable calls the plugin's
`destroy`; the log of those calls is part of the state.
*/
module PluginHost {
  import opened Common

  /** A registered plugin.  `serial` numbers registrations; `hasVTable` is false for Wasm and bare libraries. */
  datatype Backend = Backend(name: string, kind: string, hasVTable: bool, serial: nat)

  datatype PluginError = LoadFailed | DuplicateName(name: string) | NotFound(name: string)

  /** What opening a shared library yields: the name its VTable reports, if it has one, and the stem of its file. */
  datatype Library = Library(vtableName: Option<string>, fileStem: Option<string>)

  /** `derive_name_from_path`: strip the platform's prefix. */
  function DeriveName(fileStem: Option<string>, prefix: string): string {
    var stem := if fileStem.Some? then fileStem.value else "unknown";
    if prefix != "" && prefix <= stem then stem[|prefix|..] else stem
  }

  function LibraryName(lib: Library, prefix: string): string {
    if lib.vtableName.Some? then lib.vtableName.value else DeriveName(lib.fileStem, prefix)
  }

  /** A library is named by its VTable if it has one, otherwise by its file without the platform's prefix. */
  lemma LibraryIsNamed(lib: Library, prefix: string, rest: string)
    ensures lib.vtableName.Some? ==> LibraryName(lib, prefix) == lib.vtableName.value
    ensures lib.vtableName.None? && lib.fileStem == Some(prefix + rest) ==> LibraryName(lib, prefix) == rest
    ensures lib.vtableName.None? && lib.fileStem == Some(rest) && !(prefix <= rest) ==> LibraryName(lib, prefix) == rest
    ensures lib.vtableName.None? && lib.fileStem == None && !(prefix <= "unknown") ==> LibraryName(lib, prefix) == "unknown"
  {
    assert (prefix + rest)[|prefix|..] == rest && prefix <= prefix + rest;
  }

  datatype Manager = Manager(
    nameIndex: map<string, nat>,
    plugins: seq<Option<Backend>>,
    registered: seq<Backend>,
    destroyed: seq<nat>)

  const EMPTY := Manager(map[], [], [], [])

  /** The index is a bijection between names and occupied slots holding a backend of that name. */
  ghost predicate IndexInv(m: Manager) {
    && (forall n <- m.nameIndex ::
          m.nameIndex[n] < |m.plugins| && m.plugins[m.nameIndex[n]].Some? && m.plugins[m.nameIndex[n]].value.name == n)
    && (forall i :: 0 <= i < |m.plugins| && m.plugins[i].Some? ==>
          m.plugins[i].value.name in m.nameIndex && m.nameIndex[m.plugins[i].value.name] == i)
  }

  /** The serial of slot 0: slots are only ever appended, or all cleared. */
  function Base(m: Manager): int { |m.registered| - |m.plugins| }

  /** Slot i is empty or still holds the registration it was made for. */
  ghost predicate SlotInv(m: Manager) {
    && Base(m) >= 0
    && (forall k :: 0 <= k < |m.registered| ==> m.registered[k].serial == k)
    && (forall i :: 0 <= i < |m.plugins| && m.plugins[i].Some? ==> m.plugins[i].value == m.registered[Base(m) + i])
  }

  predicate Live(m: Manager, k: nat) { 0 <= k - Base(m) < |m.plugins| && m.plugins[k - Base(m)].Some? }

  ghost predicate Distinct(s: seq<nat>) { forall i, j :: 0 <= i < j < |s| ==> s[i] != s[j] }

  /** Every registered plugin with a VTable is either in its slot or has been destroyed, not both; nothing else is destroyed. */
  ghost predicate DestroyInv(m: Manager) {
    && (forall k: nat :: k in m.destroyed <==> k < |m.registered| && m.registered[k].hasVTable && !Live(m, k))
    && Distinct(m.destroyed)
  }

  ghost predicate Inv(m: Manager) { IndexInv(m) && SlotInv(m) && DestroyInv(m) }

  /** The map the manager stands for. */
  function Contents(m: Manager): map<string, Backend>
    requires IndexInv(m)
  {
    map n <- m.nameIndex :: m.plugins[m.nameIndex[n]].value
  }

  // ---------------------------------------------------------------- operations

  function Register(m: Manager, name: string, kind: string, hasVTable: bool): Manager {
    var backend := Backend(name, kind, hasVTable, |m.registered|);
    m.(nameIndex := m.nameIndex[name := |m.plugins|],
       plugins := m.plugins + [Some(backend)],
       registered := m.registered + [backend])
  }

  /** Dropping a native backend with a VTable calls its `destroy`. */
  function Own(slot: Option<Backend>): seq<nat> {
    if slot.Some? && slot.value.hasVTable then [slot.value.serial] else []
  }

  /** Take a backend out of its slot and drop it. */
  function DropSlot(m: Manager, i: nat): Manager
    requires i < |m.plugins|
  {
    var slot := m.plugins[i];
    m.(plugins := m.plugins[i := None],
       destroyed := m.destroyed + Own(slot))
  }

  function Load(m: Manager, name: string, kind: string, hasVTable: bool): (r: (Manager, Result<string, PluginError>)) {
    if name in m.nameIndex then (m, Err(DuplicateName(name)))
    else (Register(m, name, kind, hasVTable), Ok(name))
  }

  /** A directory entry: a file of the platform's library extension, a .wasm file, or anything else; and what opening it yields. */
  datatype Entry = NativeFile(library: Option<Library>) | WasmFile(plugin: Option<string>) | Skipped

  datatype Opened = Opened(name: string, kind: string, hasVTable: bool)

  function Open(entry: Entry, prefix: string): Option<Opened> {
    match entry
    case NativeFile(Some(lib)) => Some(Opened(LibraryName(lib, prefix), "native", lib.vtableName.Some?))
    case WasmFile(Some(name)) => Some(Opened(name, "wasm", false))
    case _ => None
  }

  /** One entry of a directory: a failure to open it or a duplicate name is skipped. */
  function LoadOne(m: Manager, entry: Entry, prefix: string): (Manager, nat) {
    match Open(entry, prefix)
    case None => (m, 0)
    case Some(plugin) =>
      var (next, r) := Load(m, plugin.name, plugin.kind, plugin.hasVTable);
      (next, if r.Ok? then 1 else 0)
  }

  /** `load_from_directory` on the first `n` entries. */
  function LoadEach(m: Manager, entries: seq<Entry>, prefix: string, n: nat): (Manager, nat)
    requires n <= |entries|
  {
    if n == 0 then (m, 0)
    else
      var (before, count) := LoadEach(m, entries, prefix, n - 1);
      var (next, one) := LoadOne(before, entries[n - 1], prefix);
      (next, count + one)
  }

  ghost predicate LoadedSoFar(m: Manager, entries: seq<Entry>, prefix: string, n: nat, next: Manager, count: nat)
    requires n <= |entries|
  {
    LoadEach(m, entries, prefix, n) == (next, count)
  }

  lemma LoadEachNext(m: Manager, entries: seq<Entry>, prefix: string, i: nat,
                     before: Manager, count: nat, next: Manager, one: nat)
    requires i < |entries| && LoadedSoFar(m, entries, prefix, i, before, count)
    requires LoadOne(before, entries[i], prefix) == (next, one)
    ensures LoadedSoFar(m, entries, prefix, i + 1, next, count + one)
  {
  }

  lemma LoadEachLast(m: Manager, entries: seq<Entry>, prefix: string, i: nat, next: Manager, total: nat)
    returns (before: Manager, count: nat)
    requires i < |entries| && LoadedSoFar(m, entries, prefix, i + 1, next, total)
    ensures LoadedSoFar(m, entries, prefix, i, before, count)
    ensures LoadOne(before, entries[i], prefix).0 == next && count + LoadOne(before, entries[i], prefix).1 == total
  {
    before, count := LoadEach(m, entries, prefix, i).0, LoadEach(m, entries, prefix, i).1;
  }

  function Unload(m: Manager, name: string): (r: (Manager, Result<(), PluginError>))
    requires IndexInv(m)
  {
    if name !in m.nameIndex then (m, Err(NotFound(name)))
    else (DropSlot(m.(nameIndex := m.nameIndex - {name}), m.nameIndex[name]), Ok(()))
  }

  /** The serials that dropping slots n-1, n-2, ..., 0 destroys, in that order. */
  function DropOrder(plugins: seq<Option<Backend>>, n: nat): seq<nat>
    requires n <= |plugins|
  {
    if n == 0 then []
    else
      Own(plugins[n - 1]) + DropOrder(plugins, n - 1)
  }

  function UnloadAll(m: Manager): Manager {
    Manager(map[], [], m.registered, m.destroyed + DropOrder(m.plugins, |m.plugins|))
  }

  // ---------------------------------------------------------------- refinement of a map

  lemma RegisterKeepsIndex(m: Manager, name: string, kind: string, hasVTable: bool)
    requires IndexInv(m) && name !in m.nameIndex
    ensures
      var next := Register(m, name, kind, hasVTable);
      IndexInv(next) && Contents(next) == Contents(m)[name := Backend(name, kind, hasVTable, |m.registered|)]
  {
  }

  lemma RegisterKeepsSlots(m: Manager, name: string, kind: string, hasVTable: bool)
    requires SlotInv(m) && DestroyInv(m)
    ensures
      var next := Register(m, name, kind, hasVTable);
      SlotInv(next) && DestroyInv(next)
  {
    var next := Register(m, name, kind, hasVTable);
    assert Base(next) == Base(m);
    forall k: nat
      ensures k in next.destroyed <==> k < |next.registered| && next.registered[k].hasVTable && !Live(next, k)
    {
      assert k in m.destroyed <==> k < |m.registered| && m.registered[k].hasVTable && !Live(m, k);
    }
  }

  /** MAIN: loading adds the name, unless it is taken, and then nothing changes. */
  lemma LoadRefinesMap(m: Manager, name: string, kind: string, hasVTable: bool)
    requires Inv(m)
    ensures
      var (next, r) := Load(m, name, kind, hasVTable);
      && Inv(next)
      && (name in Contents(m) <==> r == Err(DuplicateName(name)))
      && (r.Err? ==> next == m)
      && (r.Ok? ==> Contents(next) == Contents(m)[name := Backend(name, kind, hasVTable, |m.registered|)])
  {
    if name !in m.nameIndex {
      RegisterKeepsIndex(m, name, kind, hasVTable);
      RegisterKeepsSlots(m, name, kind, hasVTable);
    }
  }

  /**
  MAIN: what a file is found under after it has been loaded: a library under its VTable's name or its own
  without the prefix, as "native"; a Wasm file under its name, as "wasm", with nothing to destroy.
  */
  lemma FileIsFoundUnder(m: Manager, entry: Entry, prefix: string, name: string, rest: string)
    requires Inv(m) && name !in Contents(m)
    requires match entry
      case NativeFile(Some(lib)) => lib.vtableName == Some(name) || (lib.vtableName.None? && lib.fileStem == Some(prefix + rest) && name == rest)
      case WasmFile(found) => found == Some(name)
      case _ => false
    ensures
      var (next, one) := LoadOne(m, entry, prefix);
      && IndexInv(next) && one == 1 && name in Contents(next)
      && Contents(next)[name].name == name
      && Contents(next)[name].kind == (if entry.NativeFile? then "native" else "wasm")
      && (Contents(next)[name].hasVTable <==> entry.NativeFile? && entry.library.value.vtableName.Some?)
  {
    match entry
    case NativeFile(Some(lib)) =>
      LibraryIsNamed(lib, prefix, rest);
      LoadRefinesMap(m, name, "native", lib.vtableName.Some?);
    case WasmFile(_) => LoadRefinesMap(m, name, "wasm", false);
  }

  lemma DropSlotDestroysOne(m: Manager, i: nat)
    requires SlotInv(m) && DestroyInv(m) && i < |m.plugins|
    ensures DestroyInv(DropSlot(m, i))
  {
    var n := DropSlot(m, i);
    var mine := Base(m) + i;
    assert Live(m, mine) <==> m.plugins[i].Some?;
    assert forall k: nat :: k != mine ==> (Live(n, k) <==> Live(m, k));
    assert !Live(n, mine);
    if m.plugins[i].Some? && m.plugins[i].value.hasVTable {
      assert m.plugins[i].value.serial == mine && mine !in m.destroyed;
      assert forall k: nat :: k in n.destroyed <==> k in m.destroyed || k == mine;
    }
  }

  lemma DropSlotKeepsSlots(m: Manager, i: nat)
    requires SlotInv(m) && DestroyInv(m) && i < |m.plugins|
    ensures SlotInv(DropSlot(m, i)) && DestroyInv(DropSlot(m, i))
  {
    DropSlotDestroysOne(m, i);
  }

  /** The map `d` has `count` more names than `c` and all that `c` has. */
  ghost predicate Extends(c: map<string, Backend>, d: map<string, Backend>, count: nat) {
    |d.Keys| == |c.Keys| + count && forall name <- c :: name in d && d[name] == c[name]
  }

  lemma OneMoreName(c: map<string, Backend>, name: string, backend: Backend)
    requires name !in c
    ensures Extends(c, c[name := backend], 1)
  {
    assert c[name := backend].Keys == c.Keys + {name};
  }

  /** `count` plugins were added; nothing was lost, nothing destroyed. */
  ghost predicate Grew(m: Manager, next: Manager, count: nat)
    requires Inv(m) && Inv(next)
  {
    && next.destroyed == m.destroyed
    && |next.registered| == |m.registered| + count
    && Extends(Contents(m), Contents(next), count)
  }

  lemma LoadGrows(m: Manager, name: string, kind: string, hasVTable: bool)
    requires Inv(m)
    ensures
      var (next, r) := Load(m, name, kind, hasVTable);
      Inv(next) && Grew(m, next, if r.Ok? then 1 else 0) && name in Contents(next)
  {
    LoadRefinesMap(m, name, kind, hasVTable);
    if name !in m.nameIndex {
      OneMoreName(Contents(m), name, Backend(name, kind, hasVTable, |m.registered|));
    }
  }

  lemma GrewTwice(m: Manager, n: Manager, o: Manager, a: nat, b: nat)
    requires Inv(m) && Inv(n) && Inv(o) && Grew(m, n, a) && Grew(n, o, b)
    ensures Grew(m, o, a + b)
  {
  }

  ghost predicate HasName(m: Manager, entry: Entry, prefix: string) {
    IndexInv(m) && (Open(entry, prefix).Some? ==> Open(entry, prefix).value.name in Contents(m))
  }

  lemma LoadOneGrows(m: Manager, entry: Entry, prefix: string)
    requires Inv(m)
    ensures
      var (next, one) := LoadOne(m, entry, prefix);
      Inv(next) && Grew(m, next, one) && HasName(next, entry, prefix)
  {
    if Open(entry, prefix).Some? {
      var plugin := Open(entry, prefix).value;
      LoadGrows(m, plugin.name, plugin.kind, plugin.hasVTable);
    }
  }

  /** Names stay. */
  lemma GrownHasName(m: Manager, next: Manager, count: nat, entry: Entry, prefix: string)
    requires Inv(m) && Inv(next) && Grew(m, next, count) && HasName(m, entry, prefix)
    ensures HasName(next, entry, prefix)
  {
  }

  ghost predicate AllNamed(m: Manager, entries: seq<Entry>, prefix: string, n: nat)
    requires n <= |entries|
  {
    forall i :: 0 <= i < n ==> HasName(m, entries[i], prefix)
  }

  /** What loading a directory does: `count` more plugins, and every plugin that opens has its name taken. */
  ghost predicate DirectoryLoaded(m: Manager, next: Manager, count: nat, entries: seq<Entry>, prefix: string, n: nat)
    requires n <= |entries|
  {
    Inv(m) && Inv(next) && Grew(m, next, count) && AllNamed(next, entries, prefix, n)
  }

  lemma OneMoreLoaded(m: Manager, before: Manager, count: nat, entries: seq<Entry>, prefix: string, n: nat)
    requires n < |entries| && DirectoryLoaded(m, before, count, entries, prefix, n)
    ensures
      var (next, one) := LoadOne(before, entries[n], prefix);
      DirectoryLoaded(m, next, count + one, entries, prefix, n + 1)
  {
    var (next, one) := LoadOne(before, entries[n], prefix);
    LoadOneGrows(before, entries[n], prefix);
    GrewTwice(m, before, next, count, one);
    forall i | 0 <= i <= n ensures HasName(next, entries[i], prefix) {
      if i < n {
        GrownHasName(before, next, one, entries[i], prefix);
      }
    }
  }

  lemma NothingLoaded(m: Manager, entries: seq<Entry>, prefix: string)
    requires Inv(m)
    ensures DirectoryLoaded(m, m, 0, entries, prefix, 0)
  {
  }

  /** MAIN: loading a directory adds one plugin for each success, loses and destroys nothing, and leaves no opened plugin's name free. */
  lemma {:induction false} LoadEachGrows(m: Manager, entries: seq<Entry>, prefix: string, n: nat, next: Manager, count: nat)
    requires Inv(m) && n <= |entries| && LoadedSoFar(m, entries, prefix, n, next, count)
    ensures DirectoryLoaded(m, next, count, entries, prefix, n)
  {
    if n == 0 {
      NothingLoaded(m, entries, prefix);
    } else {
      var before, counted := LoadEachLast(m, entries, prefix, n - 1, next, count);
      LoadEachGrows(m, entries, prefix, n - 1, before, counted);
      OneMoreLoaded(m, before, counted, entries, prefix, n - 1);
    }
  }

  lemma UnnamedKeepsIndex(m: Manager, name: string)
    requires IndexInv(m) && name in m.nameIndex
    ensures
      var next := DropSlot(m.(nameIndex := m.nameIndex - {name}), m.nameIndex[name]);
      IndexInv(next) && Contents(next) == Contents(m) - {name}
  {
  }

  lemma UnloadKeepsInv(m: Manager, name: string)
    requires Inv(m) && name in m.nameIndex
    ensures Inv(Unload(m, name).0)
  {
    var unnamed := m.(nameIndex := m.nameIndex - {name});
    DropSlotKeepsSlots(unnamed, m.nameIndex[name]);
    UnnamedKeepsIndex(m, name);
  }

  /** MAIN: unloading removes the name and destroys exactly that plugin, if it can be destroyed. */
  lemma UnloadRefinesMap(m: Manager, name: string)
    requires Inv(m)
    ensures
      var (next, r) := Unload(m, name);
      && Inv(next)
      && (name in Contents(m) <==> r.Ok?)
      && Contents(next) == Contents(m) - {name}
      && next.destroyed == m.destroyed +
           if name in Contents(m) && Contents(m)[name].hasVTable then [Contents(m)[name].serial] else []
  {
    if name in m.nameIndex {
      UnloadKeepsInv(m, name);
      UnnamedKeepsIndex(m, name);
    } else {
      assert Contents(m) - {name} == Contents(m);
    }
  }

  ghost predicate Decreasing(s: seq<nat>) { forall i, j :: 0 <= i < j < |s| ==> s[i] > s[j] }

  /** `order` lists exactly the live plugins with a VTable in slots 0..n, the latest first. */
  ghost predicate IsDropOrder(m: Manager, n: nat, order: seq<nat>) {
    && Decreasing(order)
    && forall k: nat :: k in order <==> k < Base(m) + n && Live(m, k) && m.registered[k].hasVTable
  }

  lemma OneMoreInOrder(m: Manager, n: nat, rest: seq<nat>)
    requires SlotInv(m) && n < |m.plugins| && IsDropOrder(m, n, rest)
    ensures IsDropOrder(m, n + 1, Own(m.plugins[n]) + rest)
  {
    assert forall i :: 0 <= i < |rest| ==> rest[i] in rest;
    var mine := Base(m) + n;
    assert Live(m, mine) <==> m.plugins[n].Some?;
    assert m.plugins[n].Some? ==> m.plugins[n].value == m.registered[mine];
  }

  lemma NoneInOrder(m: Manager)
    requires SlotInv(m)
    ensures IsDropOrder(m, 0, [])
  {
  }

  lemma {:induction false} DropOrderIsLive(m: Manager, n: nat, order: seq<nat>)
    requires SlotInv(m) && n <= |m.plugins| && order == DropOrder(m.plugins, n)
    ensures IsDropOrder(m, n, order)
  {
    if n == 0 {
      NoneInOrder(m);
    } else {
      var rest := DropOrder(m.plugins, n - 1);
      DropOrderIsLive(m, n - 1, rest);
      OneMoreInOrder(m, n - 1, rest);
    }
  }

  /**
  MAIN: unloading everything leaves the empty map and destroys the live plugins in reverse load order.
  */
  lemma UnloadAllDestroysTheRest(m: Manager)
    requires Inv(m)
    ensures
      var next := UnloadAll(m);
      && Inv(next) && Contents(next) == map[] && next.registered == m.registered
      && m.destroyed <= next.destroyed && Decreasing(next.destroyed[|m.destroyed|..])
      && forall k: nat :: k in next.destroyed[|m.destroyed|..] <==> Live(m, k) && m.registered[k].hasVTable
  {
    var next, order := UnloadAll(m), DropOrder(m.plugins, |m.plugins|);
    DropOrderIsLive(m, |m.plugins|, DropOrder(m.plugins, |m.plugins|));
    assert next.destroyed[|m.destroyed|..] == order;
    forall k: nat
      ensures k in next.destroyed <==> k < |next.registered| && next.registered[k].hasVTable && !Live(next, k)
    {
      assert k in m.destroyed <==> k < |m.registered| && m.registered[k].hasVTable && !Live(m, k);
    }
    forall i, j | 0 <= i < j < |next.destroyed|
      ensures next.destroyed[i] != next.destroyed[j]
    {
      if i < |m.destroyed| <= j {
        assert next.destroyed[i] in m.destroyed && next.destroyed[j] in order;
      }
    }
  }

  lemma {:induction false} CountOfDistinct(s: seq<nat>, k: nat)
    requires Distinct(s)
    ensures multiset(s)[k] == if k in s then 1 else 0
  {
    if s != [] {
      CountOfDistinct(s[1..], k);
      assert s == [s[0]] + s[1..];
    }
  }

  // ---------------------------------------------------------------- runs

  datatype Op = DoLoad(name: string, kind: string, hasVTable: bool) | DoUnload(name: string) | DoUnloadAll

  function Do(m: Manager, op: Op): Manager
    requires Inv(m)
  {
    match op
    case DoLoad(name, kind, hasVTable) => Load(m, name, kind, hasVTable).0
    case DoUnload(name) => Unload(m, name).0
    case DoUnloadAll => UnloadAll(m)
  }

  lemma OpKeepsInv(m: Manager, op: Op)
    requires Inv(m)
    ensures Inv(Do(m, op)) && m.registered <= Do(m, op).registered && m.destroyed <= Do(m, op).destroyed
  {
    match op
    case DoLoad(name, kind, hasVTable) => LoadRefinesMap(m, name, kind, hasVTable);
    case DoUnload(name) => UnloadRefinesMap(m, name);
    case DoUnloadAll => UnloadAllDestroysTheRest(m);
  }

  function Run(m: Manager, ops: seq<Op>): (r: Manager)
    requires Inv(m)
    ensures Inv(r)
    decreases |ops|
  {
    if ops == [] then m
    else
      OpKeepsInv(m, ops[0]);
      Run(Do(m, ops[0]), ops[1..])
  }

  lemma EmptyInv()
    ensures Inv(EMPTY)
  {
  }

  /**
  MAIN: over the manager's whole life (any operations, then the drop, which unloads everything)
  each plugin with a VTable that was registered is destroyed exactly once, and no other is.
  */
  lemma {:induction false} DestroyedExactlyOnce(ops: seq<Op>)
    ensures Inv(EMPTY)
    ensures
      var end := Run(EMPTY, ops);
      var dropped := UnloadAll(end);
      && dropped.registered == end.registered
      && (forall k <- dropped.destroyed :: k < |end.registered|)
      && forall k :: 0 <= k < |end.registered| ==>
           multiset(dropped.destroyed)[k] == if end.registered[k].hasVTable then 1 else 0
  {
    EmptyInv();
    var end := Run(EMPTY, ops);
    UnloadAllDestroysTheRest(end);
    var dropped := UnloadAll(end);
    forall k: nat | k < |end.registered|
      ensures multiset(dropped.destroyed)[k] == if end.registered[k].hasVTable then 1 else 0
    {
      CountOfDistinct(dropped.destroyed, k);
    }
  }

  // ---------------------------------------------------------------- the class

  class PluginManager {
    var nameIndex: map<string, nat>
    var plugins: seq<Option<Backend>>
    /** Not fields of the Rust struct: every backend ever registered, and the calls of `destroy` so far. */
    var registered: seq<Backend>
    var destroyed: seq<nat>

    ghost function Value(): Manager
      reads this
    {
      Manager(nameIndex, plugins, registered, destroyed)
    }

    constructor ()
      ensures Value() == EMPTY && Inv(Value())
    {
      nameIndex, plugins, registered, destroyed := map[], [], [], [];
    }

    method Add(name: string, kind: string, hasVTable: bool) returns (r: Result<string, PluginError>)
      requires Inv(Value())
      modifies this
      ensures Inv(Value()) && (Value(), r) == Load(old(Value()), name, kind, hasVTable)
    {
      LoadRefinesMap(Value(), name, kind, hasVTable);
      if name in nameIndex {
        return Err(DuplicateName(name));
      }
      var backend := Backend(name, kind, hasVTable, |registered|);
      var idx := |plugins|;
      plugins := plugins + [Some(backend)];
      nameIndex := nameIndex[name := idx];
      registered := registered + [backend];
      r := Ok(name);
    }

    /** `library` is what the dynamic loader makes of the path. */
    method LoadFile(library: Option<Library>, prefix: string) returns (r: Result<string, PluginError>)
      requires Inv(Value())
      modifies this
      ensures Inv(Value())
      ensures match library
        case None => r == Err(LoadFailed) && Value() == old(Value())
        case Some(lib) => (Value(), r) == Load(old(Value()), LibraryName(lib, prefix), "native", lib.vtableName.Some?)
      ensures LoadOne(old(Value()), NativeFile(library), prefix) == (Value(), if r.Ok? then 1 else 0)
    {
      if library.None? {
        return Err(LoadFailed);
      }
      var lib := library.value;
      var name := if lib.vtableName.Some? then lib.vtableName.value else DeriveName(lib.fileStem, prefix);
      r := Add(name, "native", lib.vtableName.Some?);
    }

    method LoadWasm(name: Option<string>) returns (r: Result<string, PluginError>)
      requires Inv(Value())
      modifies this
      ensures Inv(Value())
      ensures match name
        case None => r == Err(LoadFailed) && Value() == old(Value())
        case Some(n) => (Value(), r) == Load(old(Value()), n, "wasm", false)
      ensures LoadOne(old(Value()), WasmFile(name), "") == (Value(), if r.Ok? then 1 else 0)
    {
      if name.None? {
        return Err(LoadFailed);
      }
      r := Add(name.value, "wasm", false);
    }

    /** `load_from_directory`, on what opening its files in turn yields. */
    method LoadFromDirectory(entries: seq<Entry>, prefix: string) returns (count: nat)
      requires Inv(Value())
      modifies this
      ensures Inv(Value()) && (Value(), count) == LoadEach(old(Value()), entries, prefix, |entries|)
    {
      ghost var start := Value();
      count := 0;
      for i := 0 to |entries|
        invariant Inv(Value()) && LoadedSoFar(start, entries, prefix, i, Value(), count)
      {
        ghost var before := Value();
        var r: Result<string, PluginError> := Err(LoadFailed);
        match entries[i] {
          case NativeFile(library) => r := LoadFile(library, prefix);
          case WasmFile(plugin) => r := LoadWasm(plugin);
          case Skipped =>
        }
        LoadEachNext(start, entries, prefix, i, before, count, Value(), if r.Ok? then 1 else 0);
        if r.Ok? {
          count := count + 1;
        }
      }
    }

    /** The backend that `invoke`, `get` and `plugin_kind` talk to. */
    method Find(name: string) returns (r: Result<Backend, PluginError>)
      requires Inv(Value())
      ensures r == if name in Contents(Value()) then Ok(Contents(Value())[name]) else Err(NotFound(name))
    {
      if name !in nameIndex {
        return Err(NotFound(name));
      }
      var slot := plugins[nameIndex[name]];
      r := if slot.Some? then Ok(slot.value) else Err(NotFound(name));
    }

    method TakeSlot(i: nat)
      requires i < |plugins|
      modifies this`plugins, this`destroyed
      ensures Value() == DropSlot(old(Value()), i)
    {
      destroyed := destroyed + Own(plugins[i]);
      plugins := plugins[i := None];
    }

    method UnloadPlugin(name: string) returns (r: Result<(), PluginError>)
      requires Inv(Value())
      modifies this
      ensures Inv(Value()) && (Value(), r) == Unload(old(Value()), name)
    {
      UnloadRefinesMap(Value(), name);
      if name !in nameIndex {
        return Err(NotFound(name));
      }
      var idx := nameIndex[name];
      nameIndex := nameIndex - {name};
      TakeSlot(idx);
      r := Ok(());
    }

    /** The loop of `unload_all`: take the slots from the last to the first. */
    method TakeAllSlots()
      modifies this`plugins, this`destroyed
      ensures destroyed == old(destroyed) + DropOrder(old(plugins), |old(plugins)|)
    {
      ghost var start, log := plugins, destroyed;
      for i := |plugins| downto 0
        invariant |plugins| == |start|
        invariant forall k :: 0 <= k < i ==> plugins[k] == start[k]
        invariant destroyed + DropOrder(start, i) == log + DropOrder(start, |start|)
      {
        ghost var before := destroyed;
        TakeSlot(i);
        assert (before + Own(start[i])) + DropOrder(start, i) == before + (Own(start[i]) + DropOrder(start, i));
      }
      assert destroyed + [] == destroyed;
    }

    /** Also what dropping the manager does. */
    method UnloadEverything()
      requires Inv(Value())
      modifies this
      ensures Inv(Value()) && Value() == UnloadAll(old(Value()))
    {
      UnloadAllDestroysTheRest(Value());
      TakeAllSlots();
      nameIndex := map[];
      plugins := [];
    }
  }
}

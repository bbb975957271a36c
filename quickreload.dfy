/** The QuickReload variant of the engine: methods are grouped per mod, and the equivalent of
    a method in a rebuilt assembly is found by declaring type, name, ordered parameter types
    and generic arguments. */
module QuickReload {
  import opened Reflection
  import opened Patching
  import opened Discovery

  // ---------------------------------------------------------------------------
  // Equivalence matcher.

  /** Same declaring-type full name, name, ordered parameter types and generic arguments.
      Types are compared as references, image and all: the original's parameter types are
      those of the image it was loaded from. */
  predicate SameSignature(c: MethodSig, original: MethodSig)
  {
    c.declType == original.declType && c.name == original.name &&
    c.params == original.params && c.generics == original.generics
  }

  /** `GetEquivalentMethod`: the type is looked up by full name (case-sensitive, throwing when
      absent), then the method declared in it with the original's signature: none is a null
      result, exactly one is the replacement, and two or more make the lookup throw. */
  function GetEquivalentMethod(newAsm: Assembly, original: MethodSig): (r: Lookup)
    ensures r.TypeMissing? <==> forall t :: t in newAsm.types ==> t.fullName != original.declType
    ensures r.Found? ==> SameSignature(r.replacement, original) &&
                         r.replacement in DeclaredIn(newAsm, original.declType)
    ensures r.NotFound? <==> !r.TypeMissing? &&
                             forall c :: c in DeclaredIn(newAsm, original.declType) ==> !SameSignature(c, original)
    ensures var ds := DeclaredIn(newAsm, original.declType);
            forall i :: 0 <= i < |ds| && SameSignature(ds[i], original) &&
                        (forall j :: 0 <= j < |ds| && j != i ==> !SameSignature(ds[j], original))
                        ==> r == Found(ds[i])
    ensures var ds := DeclaredIn(newAsm, original.declType);
            r.Ambiguous? <==> exists i, j :: 0 <= i < j < |ds| && SameSignature(ds[i], original) &&
                                             SameSignature(ds[j], original)
  {
    match FindType(newAsm.types, original.declType)
    case None => TypeMissing
    case Some(t) =>
      var keep := c => SameSignature(c, original);
      var candidates := Filter(Sigs(t.methods), keep);
      FilterSingle(Sigs(t.methods), keep);
      assert candidates != [] ==> candidates[0] in candidates;
      Resolve(candidates)
  }

  /** The matcher applied to one rebuilt assembly, as the reload loop uses it. */
  function Matcher(newAsm: Assembly): MethodSig -> Lookup
  {
    m => GetEquivalentMethod(newAsm, m)
  }

  /** With both `Foo(int,int)` and `Foo(int,string)` in the rebuilt type, `Foo(int,int)` is
      matched to its own overload. */
  lemma OverloadsAreDistinguished()
    ensures var int32, text := TypeRef("mscorlib", "System.Int32"), TypeRef("mscorlib", "System.String");
            var old1 := MethodSig("Mod_1", "TypeA", "Foo", [int32, int32], []);
            var new1 := MethodSig("Mod_2", "TypeA", "Foo", [int32, int32], []);
            var new2 := MethodSig("Mod_2", "TypeA", "Foo", [int32, text], []);
            var asm := Assembly("Mod_2", [TypeDef("TypeA", [MethodDef(new2, true), MethodDef(new1, true)])]);
            GetEquivalentMethod(asm, old1) == Found(new1)
  {
    var int32, text := TypeRef("mscorlib", "System.Int32"), TypeRef("mscorlib", "System.String");
    var old1 := MethodSig("Mod_1", "TypeA", "Foo", [int32, int32], []);
    var new1 := MethodSig("Mod_2", "TypeA", "Foo", [int32, int32], []);
    var new2 := MethodSig("Mod_2", "TypeA", "Foo", [int32, text], []);
    var asm := Assembly("Mod_2", [TypeDef("TypeA", [MethodDef(new2, true), MethodDef(new1, true)])]);
    assert DeclaredIn(asm, "TypeA") == [new2, new1];
    assert !SameSignature(new2, old1) && SameSignature(new1, old1);
  }

  /** A method whose parameter list names a type of the image it was loaded from has no
      equivalent in a rebuilt image that refers only to its own and third-party types: the
      lookup is a null result when the type exists, never a replacement. */
  lemma OwnParameterTypeNeverMatches(newAsm: Assembly, original: MethodSig, k: nat)
    requires k < |original.params| && original.params[k].assembly == original.assembly
    requires forall c, p :: c in DeclaredIn(newAsm, original.declType) && p in c.params ==>
                            p.assembly != original.assembly
    ensures !GetEquivalentMethod(newAsm, original).Found?
    ensures FindType(newAsm.types, original.declType).Some? ==>
              GetEquivalentMethod(newAsm, original) == NotFound
  {
    assert original.params[k] in original.params;
  }

  /** `Foo(Model)`, with `Model` declared beside it, is not found again after a rebuild. */
  lemma OwnParameterTypeExample()
    ensures var old1 := MethodSig("Mod_1", "TypeA", "Foo", [TypeRef("Mod_1", "Model")], []);
            var new1 := MethodSig("Mod_2", "TypeA", "Foo", [TypeRef("Mod_2", "Model")], []);
            var asm := Assembly("Mod_2", [TypeDef("TypeA", [MethodDef(new1, true)])]);
            GetEquivalentMethod(asm, old1) == NotFound
  {
    var old1 := MethodSig("Mod_1", "TypeA", "Foo", [TypeRef("Mod_1", "Model")], []);
    var new1 := MethodSig("Mod_2", "TypeA", "Foo", [TypeRef("Mod_2", "Model")], []);
    var asm := Assembly("Mod_2", [TypeDef("TypeA", [MethodDef(new1, true)])]);
    assert DeclaredIn(asm, "TypeA") == [new1];
    assert !SameSignature(new1, old1);
  }

  // ---------------------------------------------------------------------------
  // Discovery: methods grouped per mod.

  /** The walk over a mod's assemblies, types and methods, every method keyed by the mod. */
  function AssemblyEvents(mod: Mod, asms: seq<Assembly>): seq<Event<Mod>>
    decreases |asms|
  {
    if asms == [] then []
    else AssemblyEvents(mod, asms[..|asms| - 1]) + TypeEvents(mod, asms[|asms| - 1].types)
  }

  /** A mod without loaded-assembly information is skipped. */
  function ModEvents(mod: Mod): seq<Event<Mod>>
  {
    match LoadedAssemblies(mod)
    case None => []
    case Some(asms) => AssemblyEvents(mod, asms)
  }

  function ScanMod(st: ScanState<Mod>, mod: Mod): ScanState<Mod>
  {
    match LoadedAssemblies(mod)
    case None => st
    case Some(asms) => ScanEvents(Progress(st, false), DllFolders(mod), AssemblyEvents(mod, asms)).scan
  }

  function ScanMods(st: ScanState<Mod>, mods: seq<Mod>): ScanState<Mod>
    decreases |mods|
  {
    if mods == [] then st
    else ScanMod(ScanMods(st, mods[..|mods| - 1]), mods[|mods| - 1])
  }

  /** `Load` from the given watch state: `methods` cleared, counters at zero, then the scan. */
  function Discover(watched: set<string>, watchers: seq<Watcher<Mod>>, mods: seq<Mod>): ScanState<Mod>
  {
    ScanMods(ScanState(map[], 0, watched, watchers, 0), mods)
  }

  /** Every handle's walk, in order; handles sharing one content pack are all walked. */
  function AllEvents(mods: seq<Mod>): seq<Event<Mod>>
    decreases |mods|
  {
    if mods == [] then []
    else AllEvents(mods[..|mods| - 1]) + ModEvents(mods[|mods| - 1])
  }

  /** The folders of every mod that has a marked method. */
  ghost function WatchedBy(mods: seq<Mod>): set<string>
    decreases |mods|
  {
    if mods == [] then {}
    else
      var last := mods[|mods| - 1];
      WatchedBy(mods[..|mods| - 1]) + (if AnyMarked(ModEvents(last)) then FolderSet(DllFolders(last)) else {})
  }

  /** The watchers from index `base` on are owned by groups that have methods. */
  ghost predicate OwnersRegistered(st: ScanState<Mod>, base: nat)
  {
    forall i :: base <= i < |st.watchers| ==>
      st.watchers[i].owner in st.methods && st.methods[st.watchers[i].owner] != []
  }

  /** The scan over all mods groups exactly as `Group` does over every walk. */
  lemma {:induction false} ScanModsGroups(st: ScanState<Mod>, mods: seq<Mod>)
    ensures ScanMods(st, mods).methods == Group(st.methods, AllEvents(mods))
    ensures ScanMods(st, mods).methodCount == st.methodCount + MarkedCount(AllEvents(mods))
    decreases |mods|
  {
    if mods != [] {
      var pre := mods[..|mods| - 1];
      var last := mods[|mods| - 1];
      ScanModsGroups(st, pre);
      GroupAppend(st.methods, AllEvents(pre), ModEvents(last));
      match LoadedAssemblies(last)
      case None =>
        assert AllEvents(mods) == AllEvents(pre) + [];
      case Some(asms) =>
        ScanGroups(Progress(ScanMods(st, pre), false), DllFolders(last), AssemblyEvents(last, asms));
    }
  }

  /** The watched set grows by the folders of the mods with a marked method; watchers only
      grow, in lockstep with the watched set, and a scan that watches no new folder creates
      no watcher. */
  lemma {:induction false} ScanModsWatches(st: ScanState<Mod>, mods: seq<Mod>)
    ensures var r := ScanMods(st, mods);
      && r.watched == st.watched + WatchedBy(mods)
      && st.watchers <= r.watchers
      && r.watcherCount == st.watcherCount + (|r.watchers| - |st.watchers|)
      && (WatchedBy(mods) <= st.watched ==> r.watchers == st.watchers)
      && (WatchSound(st) ==> WatchSound(r))
    decreases |mods|
  {
    if mods != [] {
      var pre := mods[..|mods| - 1];
      var last := mods[|mods| - 1];
      ScanModsWatches(st, pre);
      match LoadedAssemblies(last)
      case None =>
      case Some(asms) =>
        var mid := ScanMods(st, pre);
        ScanWatches(Progress(mid, false), DllFolders(last), AssemblyEvents(last, asms));
    }
  }

  /** Watchers created by the scan are owned by mods that end up with a group. */
  lemma {:induction false} ScanModsOwners(st: ScanState<Mod>, mods: seq<Mod>)
    ensures OwnersRegistered(ScanMods(st, mods), |st.watchers|)
    decreases |mods|
  {
    if mods != [] {
      var pre := mods[..|mods| - 1];
      var last := mods[|mods| - 1];
      ScanModsOwners(st, pre);
      ScanModsWatches(st, pre);
      var mid := ScanMods(st, pre);
      match LoadedAssemblies(last)
      case None =>
      case Some(asms) =>
        var p := Progress(mid, false);
        var evs := AssemblyEvents(last, asms);
        ScanWatches(p, DllFolders(last), evs);
        ScanGroups(p, DllFolders(last), evs);
        NewOwnersRegistered(p, DllFolders(last), evs);
        var r := ScanMods(st, mods);
        forall i | |st.watchers| <= i < |mid.watchers|
          ensures r.watchers[i].owner in r.methods && r.methods[r.watchers[i].owner] != []
        {
          assert r.watchers[i] == mid.watchers[i];
          GroupContents(mid.methods, evs, mid.watchers[i].owner);
        }
    }
  }

  /** After `Load` every group has methods, and the method counter is the total of the
      group lengths; the grouping depends on the mods alone, whatever `methods` held before. */
  lemma LoadGroups(watched: set<string>, watchers: seq<Watcher<Mod>>, mods: seq<Mod>)
    ensures Discover(watched, watchers, mods).methods == Group(map[], AllEvents(mods))
    ensures Registered(Discover(watched, watchers, mods).methods, Discover(watched, watchers, mods).methodCount)
  {
    var st := ScanState(map[], 0, watched, watchers, 0);
    ScanModsGroups(st, mods);
    GroupRegistered(map[], 0, AllEvents(mods));
  }

  /** `Load` watches exactly the folders of the mods with a marked method that were not
      watched before, one new watcher each, owned by a mod that has a group. */
  lemma LoadWatches(watched: set<string>, watchers: seq<Watcher<Mod>>, mods: seq<Mod>)
    requires WatchSound(ScanState(map[], 0, watched, watchers, 0))
    ensures var r := Discover(watched, watchers, mods);
      && r.watched == watched + WatchedBy(mods)
      && watchers <= r.watchers
      && r.watcherCount == |r.watchers| - |watchers|
      && WatchSound(r)
      && OwnersRegistered(r, |watchers|)
  {
    ScanModsWatches(ScanState(map[], 0, watched, watchers, 0), mods);
    ScanModsOwners(ScanState(map[], 0, watched, watchers, 0), mods);
  }

  /** A second `Load` over the same mods creates no watcher and rebuilds the same groups. */
  lemma RescanCreatesNoWatchers(watched: set<string>, watchers: seq<Watcher<Mod>>, mods: seq<Mod>)
    ensures var first := Discover(watched, watchers, mods);
            var second := Discover(first.watched, first.watchers, mods);
            second.watchers == first.watchers && second.watched == first.watched &&
            second.watcherCount == 0 &&
            second.methods == first.methods && second.methodCount == first.methodCount
  {
    var first := Discover(watched, watchers, mods);
    ScanModsGroups(ScanState(map[], 0, watched, watchers, 0), mods);
    ScanModsWatches(ScanState(map[], 0, watched, watchers, 0), mods);
    ScanModsGroups(ScanState(map[], 0, first.watched, first.watchers, 0), mods);
    ScanModsWatches(ScanState(map[], 0, first.watched, first.watchers, 0), mods);
  }

  // ---------------------------------------------------------------------------
  // The engine's static state.

  class Core {
    var watchedDirectories: set<string>
    var watchers: seq<Watcher<Mod>>
    var methods: map<Mod, seq<MethodSig>>
    var patches: map<MethodSig, MethodSig>
    /** The patching library's state for the methods this engine patches. */
    ghost var harmony: PatchTable

    ghost predicate Valid()
      reads this
    {
      WatchSound(State(0, 0)) &&
      (forall k :: k in methods ==> methods[k] != []) &&
      Consistent(PatchState(patches, harmony))
    }

    function State(methodCount: nat, watcherCount: nat): ScanState<Mod>
      reads this
    {
      ScanState(methods, methodCount, watchedDirectories, watchers, watcherCount)
    }

    constructor ()
      ensures Valid()
      ensures watchedDirectories == {} && watchers == [] && methods == map[]
      ensures patches == map[] && harmony == map[]
    {
      watchedDirectories := {};
      watchers := [];
      methods := map[];
      patches := map[];
      harmony := map[];
    }

    /** The discovery scan. Returns the two counters it reports. */
    method Load(mods: seq<Mod>) returns (methodCount: nat, watcherCount: nat)
      requires Valid()
      modifies this
      ensures Valid()
      ensures State(methodCount, watcherCount) == Discover(old(watchedDirectories), old(watchers), mods)
      ensures patches == old(patches) && harmony == old(harmony)
    {
      methodCount, watcherCount := 0, 0;
      methods := map[];
      ghost var start := State(0, 0);
      var i := 0;
      while i < |mods|
        invariant 0 <= i <= |mods|
        invariant State(methodCount, watcherCount) == ScanMods(start, mods[..i])
        invariant patches == old(patches) && harmony == old(harmony)
      {
        assert mods[..i + 1][..i] == mods[..i];
        methodCount, watcherCount := LoadMod(mods[i], methodCount, watcherCount);
        i := i + 1;
      }
      assert mods[..i] == mods;
      LoadGroups(old(watchedDirectories), old(watchers), mods);
      LoadWatches(old(watchedDirectories), old(watchers), mods);
    }

    /** One mod of the scan: its assemblies, their types and their methods, with the
        mod's `hasInMod` flag starting clear. */
    method LoadMod(mod: Mod, methodCount0: nat, watcherCount0: nat) returns (methodCount: nat, watcherCount: nat)
      modifies this
      ensures State(methodCount, watcherCount) == ScanMod(old(State(methodCount0, watcherCount0)), mod)
      ensures patches == old(patches) && harmony == old(harmony)
    {
      methodCount, watcherCount := methodCount0, watcherCount0;
      var loaded := LoadedAssemblies(mod);
      if loaded.None? {
        return;
      }
      var assemblies := loaded.value;
      var folders := DllFolders(mod);
      ghost var before := Progress(State(methodCount, watcherCount), false);
      var hasInMod := false;
      var j := 0;
      while j < |assemblies|
        invariant 0 <= j <= |assemblies|
        invariant Progress(State(methodCount, watcherCount), hasInMod) ==
                  ScanEvents(before, folders, AssemblyEvents(mod, assemblies[..j]))
        invariant patches == old(patches) && harmony == old(harmony)
      {
        var ass := assemblies[j];
        ScanEventsAppend(before, folders, AssemblyEvents(mod, assemblies[..j]), TypeEvents(mod, ass.types));
        methodCount, watcherCount, hasInMod := VisitTypes(mod, folders, ass.types, methodCount, watcherCount, hasInMod);
        assert assemblies[..j + 1][..j] == assemblies[..j];
        j := j + 1;
      }
      assert assemblies[..j] == assemblies;
    }

    /** The types of one assembly, in order. */
    method VisitTypes(key: Mod, folders: seq<string>, types: seq<TypeDef>,
                      methodCount0: nat, watcherCount0: nat, hasInMod0: bool)
      returns (methodCount: nat, watcherCount: nat, hasInMod: bool)
      modifies this
      ensures Progress(State(methodCount, watcherCount), hasInMod) ==
              ScanEvents(Progress(old(State(methodCount0, watcherCount0)), hasInMod0), folders, TypeEvents(key, types))
      ensures patches == old(patches) && harmony == old(harmony)
    {
      methodCount, watcherCount, hasInMod := methodCount0, watcherCount0, hasInMod0;
      ghost var before := Progress(State(methodCount, watcherCount), hasInMod);
      assert types[..0] == [];
      var k := 0;
      while k < |types|
        invariant 0 <= k <= |types|
        invariant Progress(State(methodCount, watcherCount), hasInMod) ==
                  ScanEvents(before, folders, TypeEvents(key, types[..k]))
        invariant patches == old(patches) && harmony == old(harmony)
      {
        var entries := types[k].methods;
        ScanEventsAppend(before, folders, TypeEvents(key, types[..k]), MethodEvents(key, entries));
        methodCount, watcherCount, hasInMod := VisitMethods(key, folders, entries, methodCount, watcherCount, hasInMod);
        assert types[..k + 1][..k] == types[..k];
        k := k + 1;
      }
      assert types[..k] == types;
    }

    /** The methods of one type: each marked one is appended to its mod's group and
        counted; the first marked method of the mod triggers the watch setup. */
    method VisitMethods(mod: Mod, folders: seq<string>, entries: seq<MethodDef>,
                        methodCount0: nat, watcherCount0: nat, hasInMod0: bool)
      returns (methodCount: nat, watcherCount: nat, hasInMod: bool)
      modifies this
      ensures Progress(State(methodCount, watcherCount), hasInMod) ==
              ScanEvents(Progress(old(State(methodCount0, watcherCount0)), hasInMod0), folders, MethodEvents(mod, entries))
      ensures patches == old(patches) && harmony == old(harmony)
    {
      methodCount, watcherCount, hasInMod := methodCount0, watcherCount0, hasInMod0;
      ghost var before := Progress(State(methodCount, watcherCount), hasInMod);
      assert MethodEvents(mod, entries[..0]) == [];
      var l := 0;
      while l < |entries|
        invariant 0 <= l <= |entries|
        invariant Progress(State(methodCount, watcherCount), hasInMod) ==
                  ScanEvents(before, folders, MethodEvents(mod, entries[..l]))
        invariant patches == old(patches) && harmony == old(harmony)
      {
        var entry := entries[l];
        ScanEventsSnoc(before, folders, MethodEvents(mod, entries[..l]), Event(mod, entry));
        assert MethodEvents(mod, entries[..l + 1]) == MethodEvents(mod, entries[..l]) + [Event(mod, entry)];
        methodCount, watcherCount, hasInMod := VisitMethod(mod, folders, entry, methodCount, watcherCount, hasInMod);
        l := l + 1;
      }
      assert entries[..l] == entries;
    }

    /** One method of a type: a marked one is appended to its mod's group and counted, and
        the first marked method of the mod triggers the watch setup. */
    method VisitMethod(mod: Mod, folders: seq<string>, entry: MethodDef,
                       methodCount0: nat, watcherCount0: nat, hasInMod0: bool)
      returns (methodCount: nat, watcherCount: nat, hasInMod: bool)
      modifies this
      ensures Progress(State(methodCount, watcherCount), hasInMod) ==
              Visit(Progress(old(State(methodCount0, watcherCount0)), hasInMod0), folders, Event(mod, entry))
      ensures patches == old(patches) && harmony == old(harmony)
    {
      methodCount, watcherCount, hasInMod := methodCount0, watcherCount0, hasInMod0;
      if entry.marked {
        var list := if mod in methods then methods[mod] else [];
        methods := methods[mod := list + [entry.sig]];
        methodCount := methodCount + 1;
        if !hasInMod {
          hasInMod := true;
          watcherCount := WatchAll(folders, mod, methodCount, watcherCount);
        }
      }
    }

    /** The watch setup for one mod: every folder not yet watched is added to the watched
        set and gets a watcher owned by `owner`. */
    method WatchAll(folders: seq<string>, owner: Mod, methodCount: nat, watcherCount0: nat) returns (watcherCount: nat)
      modifies this
      ensures State(methodCount, watcherCount) == WatchFolders(old(State(methodCount, watcherCount0)), folders, owner)
      ensures patches == old(patches) && harmony == old(harmony)
    {
      watcherCount := watcherCount0;
      ghost var start := State(methodCount, watcherCount);
      var f := 0;
      while f < |folders|
        invariant 0 <= f <= |folders|
        invariant State(methodCount, watcherCount) == WatchFolders(start, folders[..f], owner)
        invariant patches == old(patches) && harmony == old(harmony)
      {
        var folder := folders[f];
        assert folders[..f + 1][..f] == folders[..f];
        if folder !in watchedDirectories {
          watchedDirectories := watchedDirectories + {folder};
          watchers := watchers + [Watcher(folder, owner)];
          watcherCount := watcherCount + 1;
        }
        f := f + 1;
      }
      assert folders[..f] == folders;
    }

    /** The reload handler for `mod`, given the assembly loaded from the new file. Returns
        false when an exception leaves the handler (caught by the watcher callback): the
        mod has no group, or a lookup threw. */
    method OnAssemblyChanged(mod: Mod, newAsm: Assembly) returns (completed: bool)
      requires Valid()
      modifies this
      ensures Valid()
      ensures watchedDirectories == old(watchedDirectories) && watchers == old(watchers) && methods == old(methods)
      ensures mod !in methods ==> !completed && patches == old(patches) && harmony == old(harmony)
      ensures mod in methods ==>
        Reloaded(PatchState(patches, harmony), completed) ==
        ReloadAll(PatchState(old(patches), old(harmony)), methods[mod], Matcher(newAsm))
    {
      if mod !in methods {
        return false;
      }
      completed := ReloadGroup(methods[mod], newAsm);
    }

    /** The loop over one group: for each method, the teardown of its previous replacement
        and blocker, the lookup, and the install of the new pair at `Priority.First` and
        `Priority.First - 1`. A method without an equivalent is skipped; a lookup that throws
        ends the loop, and `completed` is then false. */
    method ReloadGroup(ms: seq<MethodSig>, newAsm: Assembly) returns (completed: bool)
      requires Valid()
      modifies this
      ensures Valid()
      ensures watchedDirectories == old(watchedDirectories) && watchers == old(watchers) && methods == old(methods)
      ensures Reloaded(PatchState(patches, harmony), completed) ==
              ReloadAll(PatchState(old(patches), old(harmony)), ms, Matcher(newAsm))
    {
      ghost var st0 := PatchState(patches, harmony);
      completed := true;
      var i := 0;
      while i < |ms| && completed
        invariant 0 <= i <= |ms|
        invariant Reloaded(PatchState(patches, harmony), completed) == ReloadAll(st0, ms[..i], Matcher(newAsm))
        invariant watchedDirectories == old(watchedDirectories) && watchers == old(watchers) && methods == old(methods)
      {
        var original := ms[i];
        assert ms[..i + 1][..i] == ms[..i];
        if original in patches {
          var existing := patches[original];
          harmony := Unpatch(harmony, original, Redirect(existing));
          harmony := Unpatch(harmony, original, Blocker);
        }
        var replacement := GetEquivalentMethod(newAsm, original);
        if replacement.Found? {
          harmony := AddPatch(harmony, original, Redirect(replacement.replacement), First);
          harmony := AddPatch(harmony, original, Blocker, First - 1);
          patches := patches[original := replacement.replacement];
        } else if Throws(replacement) {
          completed := false;
        }
        i := i + 1;
      }
      if completed {
        assert ms[..i] == ms;
      } else {
        AbortIsFinal(st0, ms, i, Matcher(newAsm));
      }
      ReloadAllSettles(st0, ms, Matcher(newAsm));
    }
  }
}

/** The ModCore variant of the engine: methods are grouped per (mod, assembly), a content pack
    shared by several mod handles is walked once per scan, a reload first compares the
    build-stamped names of the new assembly and its file, and the equivalent of a method is
    found by declaring type and name only. */
module ModCore {
  import opened Reflection
  import opened Patching
  import opened Discovery

  /** The group key: a mod handle and one of its loaded assemblies. */
  datatype ModAssembly = ModAssembly(mod: Mod, asm: Assembly)

  // ---------------------------------------------------------------------------
  // Build-stamp name check.

  /** Index of the last occurrence of `c` in `s`, or -1. */
  function LastIndexOf(s: string, c: char): (r: int)
    ensures -1 <= r < |s|
    ensures r >= 0 ==> s[r] == c
    ensures forall j :: r < j < |s| ==> s[j] != c
    decreases |s|
  {
    if s == [] then -1
    else if s[|s| - 1] == c then |s| - 1
    else LastIndexOf(s[..|s| - 1], c)
  }

  /** A name cut before its last `'_'`, or None when it has no `'_'`. */
  function StripStamp(s: string): (r: Option<string>)
    ensures r.None? <==> '_' !in s
    ensures r.Some? ==> |r.value| < |s| && s[..|r.value|] == r.value && s[|r.value|] == '_'
    ensures r.Some? ==> forall j :: |r.value| < j < |s| ==> s[j] != '_'
  {
    var i := LastIndexOf(s, '_');
    if i < 0 then None else Some(s[..i])
  }

  /** Any stamped name strips back to its base, whatever the base contains. */
  lemma StripStampOfStamped(base: string, stamp: string)
    requires '_' !in stamp
    ensures StripStamp(base + "_" + stamp) == Some(base)
  {
    var s := base + "_" + stamp;
    assert s[|base|] == '_';
    assert forall j :: |base| < j < |s| ==> s[j] == stamp[j - |base| - 1];
    assert s[..|base|] == base;
  }

  /** Outcome of the name check: `Unstamped` when the assembly name or the file name has no
      `'_'` (the handler then returns), otherwise whether the stripped names agree. */
  datatype StampCheck = Unstamped | Stamped(matches: bool)

  function CheckStamps(asmName: string, fileName: string): (r: StampCheck)
    ensures r.Unstamped? <==> '_' !in asmName || '_' !in fileName
  {
    match (StripStamp(asmName), StripStamp(fileName))
    case (Some(a), Some(f)) => Stamped(a == f)
    case _ => Unstamped
  }

  /** Same base, any stamps and any file extension without `'_'`: the names match. */
  lemma SameBaseMatches(base: string, asmStamp: string, fileStamp: string)
    requires '_' !in asmStamp && '_' !in fileStamp
    ensures CheckStamps(base + "_" + asmStamp, base + "_" + fileStamp) == Stamped(true)
  {
    StripStampOfStamped(base, asmStamp);
    StripStampOfStamped(base, fileStamp);
  }

  /** Different bases: the names do not match (an error is reported, the reload goes on). */
  lemma DifferentBasesMismatch(asmBase: string, fileBase: string, asmStamp: string, fileStamp: string)
    requires '_' !in asmStamp && '_' !in fileStamp && asmBase != fileBase
    ensures CheckStamps(asmBase + "_" + asmStamp, fileBase + "_" + fileStamp) == Stamped(false)
  {
    StripStampOfStamped(asmBase, asmStamp);
    StripStampOfStamped(fileBase, fileStamp);
  }

  /** `Mod_20240101` loaded from `Mod_20240101.dll`: both strip to `Mod`. */
  lemma StampExampleMatches()
    ensures CheckStamps("Mod_20240101", "Mod_20240101.dll") == Stamped(true)
  {
    assert "Mod_20240101" == "Mod" + "_" + "20240101";
    assert "Mod_20240101.dll" == "Mod" + "_" + "20240101.dll";
    SameBaseMatches("Mod", "20240101", "20240101.dll");
  }

  /** `OtherMod_20240101` loaded from `Mod_20240101.dll`: a mismatch. */
  lemma StampExampleMismatches()
    ensures CheckStamps("OtherMod_20240101", "Mod_20240101.dll") == Stamped(false)
  {
    assert "OtherMod_20240101" == "OtherMod" + "_" + "20240101";
    assert "Mod_20240101.dll" == "Mod" + "_" + "20240101.dll";
    DifferentBasesMismatch("OtherMod", "Mod", "20240101", "20240101.dll");
  }

  /** An assembly name without a build stamp ends the check. */
  lemma StampExampleUnstamped()
    ensures CheckStamps("Mod", "Mod_20240101.dll") == Unstamped
  {
    assert forall i :: 0 <= i < |"Mod"| ==> "Mod"[i] != '_';
  }

  // ---------------------------------------------------------------------------
  // Equivalence matcher.

  /** Same declaring-type full name and name; parameters and generics are not compared. */
  predicate SameName(c: MethodSig, original: MethodSig)
  {
    c.declType == original.declType && c.name == original.name
  }

  /** `GetEquivalentMethod`: the type is looked up by full name (case-sensitive, throwing when
      absent), then the method declared in it under the original's name: none is a null
      result, exactly one is the replacement, and several overloads of that name make the
      lookup throw. */
  function GetEquivalentMethod(newAsm: Assembly, original: MethodSig): (r: Lookup)
    ensures r.TypeMissing? <==> forall t :: t in newAsm.types ==> t.fullName != original.declType
    ensures r.Found? ==> SameName(r.replacement, original) &&
                         r.replacement in DeclaredIn(newAsm, original.declType)
    ensures r.Found? ==> forall c :: c in DeclaredIn(newAsm, original.declType) && SameName(c, original)
                                     ==> c == r.replacement
    ensures r.NotFound? <==> !r.TypeMissing? &&
                             forall c :: c in DeclaredIn(newAsm, original.declType) ==> !SameName(c, original)
    ensures var ds := DeclaredIn(newAsm, original.declType);
            forall i :: 0 <= i < |ds| && SameName(ds[i], original) &&
                        (forall j :: 0 <= j < |ds| && j != i ==> !SameName(ds[j], original))
                        ==> r == Found(ds[i])
    ensures var ds := DeclaredIn(newAsm, original.declType);
            r.Ambiguous? <==> exists i, j :: 0 <= i < j < |ds| && SameName(ds[i], original) &&
                                             SameName(ds[j], original)
  {
    match FindType(newAsm.types, original.declType)
    case None => TypeMissing
    case Some(t) =>
      var keep := c => SameName(c, original);
      var candidates := Filter(Sigs(t.methods), keep);
      FilterSingle(Sigs(t.methods), keep);
      assert candidates != [] ==> candidates[0] in candidates;
      assert |candidates| == 1 ==> forall c :: c in candidates ==> c == candidates[0];
      Resolve(candidates)
  }

  /** The matcher applied to one rebuilt assembly, as the reload loop uses it. */
  function Matcher(newAsm: Assembly): MethodSig -> Lookup
  {
    m => GetEquivalentMethod(newAsm, m)
  }

  /** With both `Foo(int,int)` and `Foo(int,string)` in the rebuilt type, the lookup of
      `Foo(int,int)` by name alone throws. */
  lemma OverloadsAreAmbiguous()
    ensures var int32, text := TypeRef("mscorlib", "System.Int32"), TypeRef("mscorlib", "System.String");
            var old1 := MethodSig("Mod_1", "TypeA", "Foo", [int32, int32], []);
            var new1 := MethodSig("Mod_2", "TypeA", "Foo", [int32, int32], []);
            var new2 := MethodSig("Mod_2", "TypeA", "Foo", [int32, text], []);
            var asm := Assembly("Mod_2", [TypeDef("TypeA", [MethodDef(new2, true), MethodDef(new1, true)])]);
            GetEquivalentMethod(asm, old1) == Ambiguous
  {
    var int32, text := TypeRef("mscorlib", "System.Int32"), TypeRef("mscorlib", "System.String");
    var old1 := MethodSig("Mod_1", "TypeA", "Foo", [int32, int32], []);
    var new1 := MethodSig("Mod_2", "TypeA", "Foo", [int32, int32], []);
    var new2 := MethodSig("Mod_2", "TypeA", "Foo", [int32, text], []);
    var asm := Assembly("Mod_2", [TypeDef("TypeA", [MethodDef(new2, true), MethodDef(new1, true)])]);
    var ds := DeclaredIn(asm, "TypeA");
    assert ds == [new2, new1];
    assert SameName(ds[0], old1) && SameName(ds[1], old1);
  }

  /** A lone `Foo(int,string)` is taken as the equivalent of `Foo(int,int)`. */
  lemma ParametersIgnored()
    ensures var int32, text := TypeRef("mscorlib", "System.Int32"), TypeRef("mscorlib", "System.String");
            var old1 := MethodSig("Mod_1", "TypeA", "Foo", [int32, int32], []);
            var new2 := MethodSig("Mod_2", "TypeA", "Foo", [int32, text], []);
            var asm := Assembly("Mod_2", [TypeDef("TypeA", [MethodDef(new2, true)])]);
            GetEquivalentMethod(asm, old1) == Found(new2)
  {
    var int32, text := TypeRef("mscorlib", "System.Int32"), TypeRef("mscorlib", "System.String");
    var old1 := MethodSig("Mod_1", "TypeA", "Foo", [int32, int32], []);
    var new2 := MethodSig("Mod_2", "TypeA", "Foo", [int32, text], []);
    var asm := Assembly("Mod_2", [TypeDef("TypeA", [MethodDef(new2, true)])]);
    assert DeclaredIn(asm, "TypeA") == [new2];
  }

  // ---------------------------------------------------------------------------
  // Discovery: methods grouped per (mod, assembly), content packs walked once.

  /** The walk over a mod's assemblies, types and methods, every method keyed by its
      (mod, assembly) pair. */
  function AssemblyEvents(mod: Mod, asms: seq<Assembly>): seq<Event<ModAssembly>>
    decreases |asms|
  {
    if asms == [] then []
    else
      var last := asms[|asms| - 1];
      AssemblyEvents(mod, asms[..|asms| - 1]) + TypeEvents(ModAssembly(mod, last), last.types)
  }

  function ModEvents(mod: Mod): seq<Event<ModAssembly>>
  {
    match LoadedAssemblies(mod)
    case None => []
    case Some(asms) => AssemblyEvents(mod, asms)
  }

  /** The scan's state across mods: the shared state and the content packs seen so far. */
  datatype ModScan = ModScan(scan: ScanState<ModAssembly>, seen: set<ContentPack>)

  /** One mod: skipped without loaded-assembly information or when its content pack was
      seen before in this scan; otherwise its pack is marked seen and it is walked. */
  function ScanMod(ms: ModScan, mod: Mod): ModScan
  {
    match LoadedAssemblies(mod)
    case None => ms
    case Some(asms) =>
      var content := mod.content.value;
      if content in ms.seen then ms
      else ModScan(ScanEvents(Progress(ms.scan, false), DllFolders(mod), AssemblyEvents(mod, asms)).scan,
                   ms.seen + {content})
  }

  function ScanMods(ms: ModScan, mods: seq<Mod>): ModScan
    decreases |mods|
  {
    if mods == [] then ms
    else ScanMod(ScanMods(ms, mods[..|mods| - 1]), mods[|mods| - 1])
  }

  /** `Load` from the given watch state: `methods` cleared, counters at zero, no content pack
      seen, then the scan. */
  function Discover(watched: set<string>, watchers: seq<Watcher<ModAssembly>>, mods: seq<Mod>): ScanState<ModAssembly>
  {
    ScanMods(ModScan(ScanState(map[], 0, watched, watchers, 0), {}), mods).scan
  }

  /** The content packs of the mods that have loaded-assembly information. */
  function Contents(mods: seq<Mod>): set<ContentPack>
    decreases |mods|
  {
    if mods == [] then {}
    else
      var last := mods[|mods| - 1];
      Contents(mods[..|mods| - 1]) + (if LoadedAssemblies(last).Some? then {last.content.value} else {})
  }

  /** `mod` is walked after the mods `before`: it has assemblies and a pack not met yet. */
  predicate FirstVisit(before: seq<Mod>, mod: Mod)
  {
    LoadedAssemblies(mod).Some? && mod.content.value !in Contents(before)
  }

  /** The walks of the first mod of every content pack, in order. */
  function AllEvents(mods: seq<Mod>): seq<Event<ModAssembly>>
    decreases |mods|
  {
    if mods == [] then []
    else
      var pre := mods[..|mods| - 1];
      var last := mods[|mods| - 1];
      AllEvents(pre) + (if FirstVisit(pre, last) then ModEvents(last) else [])
  }

  /** The folders of every walked mod that has a marked method. */
  ghost function WatchedBy(mods: seq<Mod>): set<string>
    decreases |mods|
  {
    if mods == [] then {}
    else
      var pre := mods[..|mods| - 1];
      var last := mods[|mods| - 1];
      WatchedBy(pre) +
        (if FirstVisit(pre, last) && AnyMarked(ModEvents(last)) then FolderSet(DllFolders(last)) else {})
  }

  /** The watchers from index `base` on are owned by groups that have methods. */
  ghost predicate OwnersRegistered(st: ScanState<ModAssembly>, base: nat)
  {
    forall i :: base <= i < |st.watchers| ==>
      st.watchers[i].owner in st.methods && st.methods[st.watchers[i].owner] != []
  }

  /** The seen set is exactly the packs of the mods with loaded-assembly information. */
  lemma {:induction false} ScanModsSeen(st: ScanState<ModAssembly>, mods: seq<Mod>)
    ensures ScanMods(ModScan(st, {}), mods).seen == Contents(mods)
    decreases |mods|
  {
    if mods != [] {
      ScanModsSeen(st, mods[..|mods| - 1]);
    }
  }

  /** A mod whose content pack was met earlier in the scan changes nothing. */
  lemma RepeatedContentSkipped(st: ScanState<ModAssembly>, mods: seq<Mod>, mod: Mod)
    requires LoadedAssemblies(mod).Some? && mod.content.value in Contents(mods)
    ensures ScanMods(ModScan(st, {}), mods + [mod]) == ScanMods(ModScan(st, {}), mods)
  {
    ScanModsSeen(st, mods);
    assert (mods + [mod])[..|mods|] == mods;
  }

  /** The scan over all mods groups exactly as `Group` does over the walked mods' events. */
  lemma {:induction false} ScanModsGroups(st: ScanState<ModAssembly>, mods: seq<Mod>)
    ensures ScanMods(ModScan(st, {}), mods).scan.methods == Group(st.methods, AllEvents(mods))
    ensures ScanMods(ModScan(st, {}), mods).scan.methodCount == st.methodCount + MarkedCount(AllEvents(mods))
    decreases |mods|
  {
    if mods != [] {
      var pre := mods[..|mods| - 1];
      var last := mods[|mods| - 1];
      ScanModsGroups(st, pre);
      ScanModsSeen(st, pre);
      if FirstVisit(pre, last) {
        GroupAppend(st.methods, AllEvents(pre), ModEvents(last));
        ScanGroups(Progress(ScanMods(ModScan(st, {}), pre).scan, false), DllFolders(last), ModEvents(last));
      } else {
        assert ScanMods(ModScan(st, {}), mods) == ScanMods(ModScan(st, {}), pre);
        assert AllEvents(mods) == AllEvents(pre) + [] == AllEvents(pre);
      }
    }
  }

  /** The watched set grows by the folders of the walked mods with a marked method; watchers
      only grow, in lockstep with the watched set, and a scan that watches no new folder
      creates no watcher. */
  lemma {:induction false} ScanModsWatches(st: ScanState<ModAssembly>, mods: seq<Mod>)
    ensures var r := ScanMods(ModScan(st, {}), mods).scan;
      && r.watched == st.watched + WatchedBy(mods)
      && st.watchers <= r.watchers
      && r.watcherCount == st.watcherCount + (|r.watchers| - |st.watchers|)
      && (WatchedBy(mods) <= st.watched ==> r.watchers == st.watchers)
      && (WatchSound(st) ==> WatchSound(r))
    decreases |mods|
  {
    if mods != [] {
      var pre := mods[..|mods| - 1];
      var last := mods[|mods| - 1];
      ScanModsWatches(st, pre);
      ScanModsSeen(st, pre);
      if FirstVisit(pre, last) {
        ScanWatches(Progress(ScanMods(ModScan(st, {}), pre).scan, false), DllFolders(last), ModEvents(last));
      }
    }
  }

  /** Watchers created by the scan are owned by (mod, assembly) groups that have methods. */
  lemma {:induction false} ScanModsOwners(st: ScanState<ModAssembly>, mods: seq<Mod>)
    ensures OwnersRegistered(ScanMods(ModScan(st, {}), mods).scan, |st.watchers|)
    decreases |mods|
  {
    if mods != [] {
      var pre := mods[..|mods| - 1];
      var last := mods[|mods| - 1];
      ScanModsOwners(st, pre);
      ScanModsWatches(st, pre);
      ScanModsSeen(st, pre);
      if FirstVisit(pre, last) {
        var mid := ScanMods(ModScan(st, {}), pre).scan;
        var p := Progress(mid, false);
        var evs := ModEvents(last);
        ScanWatches(p, DllFolders(last), evs);
        ScanGroups(p, DllFolders(last), evs);
        NewOwnersRegistered(p, DllFolders(last), evs);
        var r := ScanMods(ModScan(st, {}), mods).scan;
        forall i | |st.watchers| <= i < |mid.watchers|
          ensures r.watchers[i].owner in r.methods && r.methods[r.watchers[i].owner] != []
        {
          assert r.watchers[i] == mid.watchers[i];
          GroupContents(mid.methods, evs, mid.watchers[i].owner);
        }
      }
    }
  }

  /** A mod's watchers are owned by the (mod, assembly) key of its first marked method. */
  lemma WatchersOwnedByFirstGroup(ms: ModScan, mod: Mod)
    ensures var r := ScanMod(ms, mod).scan;
      forall i :: |ms.scan.watchers| <= i < |r.watchers| ==>
        AnyMarked(ModEvents(mod)) && r.watchers[i].owner == FirstMarkedKey(ModEvents(mod))
  {
    if LoadedAssemblies(mod).Some? && mod.content.value !in ms.seen {
      ScanWatches(Progress(ms.scan, false), DllFolders(mod), ModEvents(mod));
    }
  }

  /** After `Load` every group has methods and the method counter is the total of the group
      lengths; the grouping depends on the mods alone, whatever `methods` held before. */
  lemma LoadGroups(watched: set<string>, watchers: seq<Watcher<ModAssembly>>, mods: seq<Mod>)
    ensures Discover(watched, watchers, mods).methods == Group(map[], AllEvents(mods))
    ensures Registered(Discover(watched, watchers, mods).methods, Discover(watched, watchers, mods).methodCount)
  {
    ScanModsGroups(ScanState(map[], 0, watched, watchers, 0), mods);
    GroupRegistered(map[], 0, AllEvents(mods));
  }

  /** `Load` watches exactly the folders of the walked mods with a marked method that were
      not watched before, one new watcher each, owned by a group that has methods. */
  lemma LoadWatches(watched: set<string>, watchers: seq<Watcher<ModAssembly>>, mods: seq<Mod>)
    requires WatchSound(ScanState(map[], 0, watched, watchers, 0))
    ensures var r := Discover(watched, watchers, mods);
      && r.watched == watched + WatchedBy(mods)
      && watchers <= r.watchers
      && r.watcherCount == |r.watchers| - |watchers|
      && WatchSound(r)
      && OwnersRegistered(r, |watchers|)
  {
    ScanModsWatches(ScanState(map[], 0, watched, watchers, 0), mods);
    ScanModsOwners(ScanState(map[], 0, watched, watchers, 0), mods);
  }

  /** A second `Load` over the same mods creates no watcher and rebuilds the same groups. */
  lemma RescanCreatesNoWatchers(watched: set<string>, watchers: seq<Watcher<ModAssembly>>, mods: seq<Mod>)
    ensures var first := Discover(watched, watchers, mods);
            var second := Discover(first.watched, first.watchers, mods);
            second.watchers == first.watchers && second.watched == first.watched &&
            second.watcherCount == 0 &&
            second.methods == first.methods && second.methodCount == first.methodCount
  {
    var first := Discover(watched, watchers, mods);
    ScanModsGroups(ScanState(map[], 0, watched, watchers, 0), mods);
    ScanModsWatches(ScanState(map[], 0, watched, watchers, 0), mods);
    ScanModsGroups(ScanState(map[], 0, first.watched, first.watchers, 0), mods);
    ScanModsWatches(ScanState(map[], 0, first.watched, first.watchers, 0), mods);
  }

  // ---------------------------------------------------------------------------
  // The engine's static state.

  class Core {
    var watchedDirectories: set<string>
    var watchers: seq<Watcher<ModAssembly>>
    var methods: map<ModAssembly, seq<MethodSig>>
    var patches: map<MethodSig, MethodSig>
    /** The patching library's state for the methods this engine patches. */
    ghost var harmony: PatchTable

    ghost predicate Valid()
      reads this
    {
      WatchSound(State(0, 0)) &&
      (forall k :: k in methods ==> methods[k] != []) &&
      Consistent(PatchState(patches, harmony))
    }

    function State(methodCount: nat, watcherCount: nat): ScanState<ModAssembly>
      reads this
    {
      ScanState(methods, methodCount, watchedDirectories, watchers, watcherCount)
    }

    constructor ()
      ensures Valid()
      ensures watchedDirectories == {} && watchers == [] && methods == map[]
      ensures patches == map[] && harmony == map[]
    {
      watchedDirectories := {};
      watchers := [];
      methods := map[];
      patches := map[];
      harmony := map[];
    }

    /** The discovery scan. Returns the two counters it reports. */
    method Load(mods: seq<Mod>) returns (methodCount: nat, watcherCount: nat)
      requires Valid()
      modifies this
      ensures Valid()
      ensures State(methodCount, watcherCount) == Discover(old(watchedDirectories), old(watchers), mods)
      ensures patches == old(patches) && harmony == old(harmony)
    {
      methodCount, watcherCount := 0, 0;
      methods := map[];
      var seenContents: set<ContentPack> := {};
      ghost var start := ModScan(State(0, 0), {});
      var i := 0;
      while i < |mods|
        invariant 0 <= i <= |mods|
        invariant ModScan(State(methodCount, watcherCount), seenContents) == ScanMods(start, mods[..i])
        invariant patches == old(patches) && harmony == old(harmony)
      {
        assert mods[..i + 1][..i] == mods[..i];
        methodCount, watcherCount, seenContents := LoadMod(mods[i], methodCount, watcherCount, seenContents);
        i := i + 1;
      }
      assert mods[..i] == mods;
      LoadGroups(old(watchedDirectories), old(watchers), mods);
      LoadWatches(old(watchedDirectories), old(watchers), mods);
    }

    /** One mod of the scan: the null and seen-content skips, then its assemblies, their
        types and their methods, with the mod's `hasInMod` flag starting clear. */
    method LoadMod(mod: Mod, methodCount0: nat, watcherCount0: nat, seen0: set<ContentPack>)
      returns (methodCount: nat, watcherCount: nat, seen: set<ContentPack>)
      modifies this
      ensures ModScan(State(methodCount, watcherCount), seen) ==
              ScanMod(ModScan(old(State(methodCount0, watcherCount0)), seen0), mod)
      ensures patches == old(patches) && harmony == old(harmony)
    {
      methodCount, watcherCount, seen := methodCount0, watcherCount0, seen0;
      var loaded := LoadedAssemblies(mod);
      if loaded.None? {
        return;
      }
      var content := mod.content.value;
      if content in seen {
        return;
      }
      seen := seen + {content};
      var assemblies := loaded.value;
      var folders := DllFolders(mod);
      ghost var before := Progress(State(methodCount, watcherCount), false);
      var hasInMod := false;
      var j := 0;
      while j < |assemblies|
        invariant 0 <= j <= |assemblies|
        invariant Progress(State(methodCount, watcherCount), hasInMod) ==
                  ScanEvents(before, folders, AssemblyEvents(mod, assemblies[..j]))
        invariant seen == seen0 + {content}
        invariant patches == old(patches) && harmony == old(harmony)
      {
        var ass := assemblies[j];
        ScanEventsAppend(before, folders, AssemblyEvents(mod, assemblies[..j]), TypeEvents(ModAssembly(mod, ass), ass.types));
        methodCount, watcherCount, hasInMod := VisitTypes(ModAssembly(mod, ass), folders, ass.types, methodCount, watcherCount, hasInMod);
        assert assemblies[..j + 1][..j] == assemblies[..j];
        j := j + 1;
      }
      assert assemblies[..j] == assemblies;
    }

    /** The types of one assembly, in order. */
    method VisitTypes(key: ModAssembly, folders: seq<string>, types: seq<TypeDef>,
                      methodCount0: nat, watcherCount0: nat, hasInMod0: bool)
      returns (methodCount: nat, watcherCount: nat, hasInMod: bool)
      modifies this
      ensures Progress(State(methodCount, watcherCount), hasInMod) ==
              ScanEvents(Progress(old(State(methodCount0, watcherCount0)), hasInMod0), folders, TypeEvents(key, types))
      ensures patches == old(patches) && harmony == old(harmony)
    {
      methodCount, watcherCount, hasInMod := methodCount0, watcherCount0, hasInMod0;
      ghost var before := Progress(State(methodCount, watcherCount), hasInMod);
      assert types[..0] == [];
      var k := 0;
      while k < |types|
        invariant 0 <= k <= |types|
        invariant Progress(State(methodCount, watcherCount), hasInMod) ==
                  ScanEvents(before, folders, TypeEvents(key, types[..k]))
        invariant patches == old(patches) && harmony == old(harmony)
      {
        var entries := types[k].methods;
        ScanEventsAppend(before, folders, TypeEvents(key, types[..k]), MethodEvents(key, entries));
        methodCount, watcherCount, hasInMod := VisitMethods(key, folders, entries, methodCount, watcherCount, hasInMod);
        assert types[..k + 1][..k] == types[..k];
        k := k + 1;
      }
      assert types[..k] == types;
    }

    /** The methods of one type: each marked one is appended to its (mod, assembly) group
        and counted; the first marked method of the mod triggers the watch setup, with
        watchers owned by that method's group. */
    method VisitMethods(key: ModAssembly, folders: seq<string>, entries: seq<MethodDef>,
                        methodCount0: nat, watcherCount0: nat, hasInMod0: bool)
      returns (methodCount: nat, watcherCount: nat, hasInMod: bool)
      modifies this
      ensures Progress(State(methodCount, watcherCount), hasInMod) ==
              ScanEvents(Progress(old(State(methodCount0, watcherCount0)), hasInMod0), folders, MethodEvents(key, entries))
      ensures patches == old(patches) && harmony == old(harmony)
    {
      methodCount, watcherCount, hasInMod := methodCount0, watcherCount0, hasInMod0;
      ghost var before := Progress(State(methodCount, watcherCount), hasInMod);
      assert MethodEvents(key, entries[..0]) == [];
      var l := 0;
      while l < |entries|
        invariant 0 <= l <= |entries|
        invariant Progress(State(methodCount, watcherCount), hasInMod) ==
                  ScanEvents(before, folders, MethodEvents(key, entries[..l]))
        invariant patches == old(patches) && harmony == old(harmony)
      {
        var entry := entries[l];
        ScanEventsSnoc(before, folders, MethodEvents(key, entries[..l]), Event(key, entry));
        assert MethodEvents(key, entries[..l + 1]) == MethodEvents(key, entries[..l]) + [Event(key, entry)];
        methodCount, watcherCount, hasInMod := VisitMethod(key, folders, entry, methodCount, watcherCount, hasInMod);
        l := l + 1;
      }
      assert entries[..l] == entries;
    }

    /** One method of a type: a marked one is appended to its (mod, assembly) group and counted, and
        the first marked method of the mod triggers the watch setup. */
    method VisitMethod(key: ModAssembly, folders: seq<string>, entry: MethodDef,
                       methodCount0: nat, watcherCount0: nat, hasInMod0: bool)
      returns (methodCount: nat, watcherCount: nat, hasInMod: bool)
      modifies this
      ensures Progress(State(methodCount, watcherCount), hasInMod) ==
              Visit(Progress(old(State(methodCount0, watcherCount0)), hasInMod0), folders, Event(key, entry))
      ensures patches == old(patches) && harmony == old(harmony)
    {
      methodCount, watcherCount, hasInMod := methodCount0, watcherCount0, hasInMod0;
      if entry.marked {
        var list := if key in methods then methods[key] else [];
        methods := methods[key := list + [entry.sig]];
        methodCount := methodCount + 1;
        if !hasInMod {
          hasInMod := true;
          watcherCount := WatchAll(folders, key, methodCount, watcherCount);
        }
      }
    }

    /** The watch setup for one mod: every folder not yet watched is added to the watched
        set and gets a watcher owned by `owner`. */
    method WatchAll(folders: seq<string>, owner: ModAssembly, methodCount: nat, watcherCount0: nat)
      returns (watcherCount: nat)
      modifies this
      ensures State(methodCount, watcherCount) == WatchFolders(old(State(methodCount, watcherCount0)), folders, owner)
      ensures patches == old(patches) && harmony == old(harmony)
    {
      watcherCount := watcherCount0;
      ghost var start := State(methodCount, watcherCount);
      var f := 0;
      while f < |folders|
        invariant 0 <= f <= |folders|
        invariant State(methodCount, watcherCount) == WatchFolders(start, folders[..f], owner)
        invariant patches == old(patches) && harmony == old(harmony)
      {
        var folder := folders[f];
        assert folders[..f + 1][..f] == folders[..f];
        if folder !in watchedDirectories {
          watchedDirectories := watchedDirectories + {folder};
          watchers := watchers + [Watcher(folder, owner)];
          watcherCount := watcherCount + 1;
        }
        f := f + 1;
      }
      assert folders[..f] == folders;
    }

    /** The reload handler for the group `(mod, ass)`, given the assembly loaded from the new
        file and that file's name. An unstamped name ends the handler quietly; a mismatch is
        reported and the reload goes on. `completed` is false when an exception leaves the
        handler (caught by the watcher callback): the group is missing, or a lookup threw. */
    method OnAssemblyChanged(mod: Mod, ass: Assembly, newAsm: Assembly, fileName: string)
      returns (check: StampCheck, completed: bool)
      requires Valid()
      modifies this
      ensures Valid()
      ensures check == CheckStamps(newAsm.name, fileName)
      ensures watchedDirectories == old(watchedDirectories) && watchers == old(watchers) && methods == old(methods)
      ensures check.Unstamped? ==> completed && patches == old(patches) && harmony == old(harmony)
      ensures check.Stamped? && ModAssembly(mod, ass) !in methods ==>
        !completed && patches == old(patches) && harmony == old(harmony)
      ensures check.Stamped? && ModAssembly(mod, ass) in methods ==>
        Reloaded(PatchState(patches, harmony), completed) ==
        ReloadAll(PatchState(old(patches), old(harmony)), methods[ModAssembly(mod, ass)], Matcher(newAsm))
    {
      check := CheckStamps(newAsm.name, fileName);
      if check.Unstamped? {
        return check, true;
      }
      var key := ModAssembly(mod, ass);
      if key !in methods {
        return check, false;
      }
      completed := ReloadGroup(methods[key], newAsm);
    }

    /** The loop over one group: for each method, the teardown of its previous replacement
        and blocker, the lookup, and the install of the new pair at `Priority.First` and
        `Priority.First - 1`. A method without an equivalent is skipped; a lookup that throws
        ends the loop, and `completed` is then false. */
    method ReloadGroup(ms: seq<MethodSig>, newAsm: Assembly) returns (completed: bool)
      requires Valid()
      modifies this
      ensures Valid()
      ensures watchedDirectories == old(watchedDirectories) && watchers == old(watchers) && methods == old(methods)
      ensures Reloaded(PatchState(patches, harmony), completed) ==
              ReloadAll(PatchState(old(patches), old(harmony)), ms, Matcher(newAsm))
    {
      ghost var st0 := PatchState(patches, harmony);
      completed := true;
      var i := 0;
      while i < |ms| && completed
        invariant 0 <= i <= |ms|
        invariant Reloaded(PatchState(patches, harmony), completed) == ReloadAll(st0, ms[..i], Matcher(newAsm))
        invariant watchedDirectories == old(watchedDirectories) && watchers == old(watchers) && methods == old(methods)
      {
        var original := ms[i];
        assert ms[..i + 1][..i] == ms[..i];
        if original in patches {
          var existing := patches[original];
          harmony := Unpatch(harmony, original, Redirect(existing));
          harmony := Unpatch(harmony, original, Blocker);
        }
        var replacement := GetEquivalentMethod(newAsm, original);
        if replacement.Found? {
          harmony := AddPatch(harmony, original, Redirect(replacement.replacement), First);
          harmony := AddPatch(harmony, original, Blocker, First - 1);
          patches := patches[original := replacement.replacement];
        } else if Throws(replacement) {
          completed := false;
        }
        i := i + 1;
      }
      if completed {
        assert ms[..i] == ms;
      } else {
        AbortIsFinal(st0, ms, i, Matcher(newAsm));
      }
      ReloadAllSettles(st0, ms, Matcher(newAsm));
    }
  }
}

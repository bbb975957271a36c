# QuickReload hot-reload engine: a Dafny model

QuickReload is a hot-reload engine for game mods. When a mod's rebuilt `.dll` appears in a
watched folder, the engine redirects every method marked with `[Reload]` to its counterpart
in the newly loaded assembly. It does this with two patching-library patches per method:
- the replacement, at `Priority.First`;
- a `Blocker` prefix that skips the original body, at `Priority.First - 1`.

The repository holds two near-identical variants of the engine core. This project models
both:

- `Source/QuickReload/Core.cs` (module `QuickReload`)
  - Marked methods are grouped per mod.
  - The equivalent method is matched on the full signature: declaring type, name, ordered
    parameter types and generic arguments.
- `Source/ModCore/Core.cs` (module `ModCore`)
  - Marked methods are grouped per (mod, assembly).
  - A content pack shared by several mod handles is walked once per scan.
  - A reload first compares the build-stamped names of the new assembly and of its file.
  - The equivalent method is matched by declaring type and name only.

Shared modules:

- `Reflection` holds plain records for methods, types, assemblies, content packs and mod
  handles. It also has the type lookup and reflection's single-method resolution.
  - A lookup that throws (`TypeMissing`, `Ambiguous`) is kept apart from a null result
    (`NotFound`).
- `Patching` holds:
  - the library's patch sets per method (ghost state);
  - the engine's `patches` table, from original to current replacement;
  - the teardown-before-install step.
  It also holds the table invariant `Consistent`: a method carries either none of the
  engine's patches, or exactly the pair installed for the replacement the table records.
- `Discovery` holds the scan, written as a left fold over the walk's events, where one event
  is one listed method with its group key. It also holds the reference definitions the scan
  is proved against:
  - `Group`: the grouping;
  - `MarkedCount` and `TotalLength`: the counters;
  - `FolderSet` and `WatchSound`: the watched folders. `WatchSound` means the watchers' folders
    are exactly the watched set, each watched once.

Each variant's static state is a class `Core`:
- `Load` is written with the source's nested loops, split into one method per loop level. It is
  proved equal to the fold.
- `OnAssemblyChanged` is proved equal to `ReloadAll` over the group. `ReloadAll` is the
  functional reload loop.

The lemmas then prove what the source promises about these functions:
- a rescan replaces the groups and creates no watcher;
- watchers and watched folders stay in lockstep;
- a successful reload leaves exactly the new pair of patches;
- a missing replacement leaves a stale table entry and no patches;
- a throwing lookup ends the loop;
- a repeated trigger changes nothing further.

## Notes on the source

Four behaviours of the code are easy to miss, and the model follows the code in each:

- **Watcher setup is per mod, not per assembly.** Each mod's `hasInMod` flag means watchers
  are set up once, from the first marked method found anywhere in the mod.
  - In the ModCore variant, every watcher of a mod carries the (mod, assembly) key of that
    first method (`ModCore.WatchersOwnedByFirstGroup`).
  - So groups of the mod's other assemblies are never reloaded by those watchers.
- **Overloads make the name-only matcher throw.** It does not silently pick a wrong overload
  (`ModCore.OverloadsAreAmbiguous`).
  - A wrong match happens only when the original's own overload is gone and a single method
    of that name remains (`ModCore.ParametersIgnored`).
- **The stamp check uses the file name with its extension.** Cutting at the last `'_'` drops
  the extension together with the stamp.
- **The signature matcher passes the old image's parameter types.** `GetEquivalentMethod` in
  the QuickReload variant looks for parameters of the very `Type` objects of the original.
  - A parameter whose type is declared in the mod's own assembly is a different type once
    the rebuilt image is loaded.
  - Such a method is therefore never found again: the lookup is null and the reload of that
    method fails (`QuickReload.OwnParameterTypeNeverMatches`).

## Model

| member | source | states |
|---|---|---|
| Reflection.LoadedAssemblies | Source/QuickReload/Core.cs:49-50 | A mod's assembly list is present exactly when the mod has content and that content has an assembly list. |
| Reflection.FindType | Source/QuickReload/Core.cs:166 | The case-sensitive type lookup returns a type from the assembly with exactly the requested full name. It returns nothing (a throw, for the caller) exactly when no type has that name. |
| Reflection.Resolve | Source/QuickReload/Core.cs:174 | Single-method resolution over the candidates: none gives a null result, exactly one gives that candidate, several give an ambiguity (a throw), never a missing type. |
| Reflection.Filter | Source/QuickReload/Core.cs:174 | The candidate list holds exactly the listed methods that meet the criterion, and is no longer than the listing. It has two or more entries exactly when the criterion accepts two or more positions of the listing. |
| Reflection.FilterSingle | Source/QuickReload/Core.cs:174 | When the criterion accepts exactly one position of the listing, the candidate list is that one method. |
| Patching.Unpatch | Source/QuickReload/Core.cs:142-143 | Unpatching removes exactly the patches of the given method from that original; every other method's patches are unchanged. |
| Patching.AddPatch | Source/QuickReload/Core.cs:155-156 | Patching adds exactly one patch, with its priority, to that original; every other method's patches are unchanged. |
| Patching.ReloadOneSettles | Source/QuickReload/Core.cs:137-158 | One teardown-before-install step keeps the table invariant. The step completes exactly when the lookup does not throw. On a found replacement the method carries exactly the replacement at `First` and the blocker at `First - 1`, and the table maps it to the replacement. Otherwise the method carries no patch and its table entry is left as it was. No other method changes. |
| Patching.AbortIsFinal | Source/QuickReload/Core.cs:135-159 | Once a lookup throws, the rest of the group is not processed: the result is the state reached at that method. |
| Patching.ReloadAllCompletes | Source/QuickReload/Core.cs:113-120 | The reload loop ends without an escaping exception exactly when no lookup for the group's methods throws. |
| Patching.ReloadAllSettles | Source/QuickReload/Core.cs:135-159 | The reload loop keeps the table invariant. Every method it reaches is settled as in one step, and every method it does not reach (outside the group, or after a throw) is untouched. |
| Patching.ReloadTwiceIsReloadOnce | Source/QuickReload/Core.cs:111-121 | A second trigger for the same rebuilt assembly gives the same completion, the same table and the same patches on every method as the first. |
| Patching.AtMostOneRedirect | Source/QuickReload/Core.cs:137-156 | Under the table invariant, a method never carries two replacement patches at once, and the one it carries is at `First`. |
| Discovery.Record | Source/QuickReload/Core.cs:66-71 | Recording appends the method to its key's list, creating the list if missing. No other key's list changes. |
| Discovery.RecordAddsOne | Source/QuickReload/Core.cs:71-72 | Recording a method raises the total list length by exactly one, matching the counter increment. |
| Discovery.GroupRegistered | Source/QuickReload/Core.cs:66-72 | Grouping keeps every list non-empty and the counter equal to the sum of the list lengths. |
| Discovery.GroupContents | Source/QuickReload/Core.cs:66-71 | After grouping, each key's list is its earlier list followed by exactly that key's marked methods in walk order. A key is present exactly when it was before or got a method. |
| Discovery.GroupAppend | Source/QuickReload/Core.cs:54-72 | Grouping a walk in two parts equals grouping it at once, and the marked counts add up. |
| Discovery.ScanGroups | Source/QuickReload/Core.cs:58-72 | The scan records exactly what `Group` computes: unmarked methods are skipped, and the counter rises by the number of marked methods. |
| Discovery.ScanFlag | Source/QuickReload/Core.cs:74-77 | A mod's `hasInMod` flag is set exactly once a marked method has been met in the mod. |
| Discovery.WatchFoldersEffect | Source/QuickReload/Core.cs:79-89 | The folder loop adds exactly the listed folders to the watched set. It creates one watcher, with the given owner, per folder not watched before, and none when all were watched. The watcher counter follows, and lockstep is kept. |
| Discovery.ScanWatches | Source/QuickReload/Core.cs:74-89 | Within one mod, folders are added only when the mod had no marked method yet and has one now. Watchers only grow, each new one for a newly watched folder and owned by the key of the mod's first marked method. No watcher is created when nothing new is watched, and lockstep is kept. |
| Discovery.NewOwnersRegistered | Source/ModCore/Core.cs:75-95 | Every watcher a mod's scan creates is owned by a group that already has methods. |
| QuickReload.GetEquivalentMethod | Source/QuickReload/Core.cs:164-176 | A missing declaring type throws. A found equivalent has the same declaring type, name, parameter types and generic arguments, and is declared in that type. The result is null exactly when the type exists and no declared method has that signature. A signature declared exactly once is found, as that method. The lookup throws for ambiguity exactly when two declared methods have the signature. |
| QuickReload.OwnParameterTypeNeverMatches | Source/QuickReload/Core.cs:168-174 | When a parameter type of the original belongs to the image it was loaded from, and the rebuilt type's methods refer to no type of that image, no replacement is found; the result is null when the type exists. |
| QuickReload.OwnParameterTypeExample | Source/QuickReload/Core.cs:168-174 | `Foo(Model)`, with `Model` declared in the same mod, is not found in the rebuilt image. |
| QuickReload.OverloadsAreDistinguished | Source/QuickReload/Core.cs:168-174 | With `Foo(int,int)` and `Foo(int,string)` both rebuilt, `Foo(int,int)` is matched to its own overload. |
| QuickReload.ScanModsGroups | Source/QuickReload/Core.cs:47-72 | The scan over all mods groups each mod's marked methods under that mod, as `Group` does over all walks. A mod without assembly information contributes nothing. |
| QuickReload.ScanModsWatches | Source/QuickReload/Core.cs:47-89 | The watched set grows by exactly the folders of the mods that have a marked method. Watchers only grow, the counter follows, and lockstep is kept. No watcher is created when no new folder is watched. |
| QuickReload.ScanModsOwners | Source/QuickReload/Core.cs:66-89 | Every watcher the scan creates is owned by a mod that has a non-empty group. |
| QuickReload.LoadGroups | Source/QuickReload/Core.cs:46-72 | After `Load`, the groups depend only on the mods: the previous groups are discarded. Every group is non-empty, and the method counter is the total group length. |
| QuickReload.LoadWatches | Source/QuickReload/Core.cs:79-89 | After `Load`, the watched set is the old one plus the folders of the mods with a marked method. Old watchers stay, the watcher counter is the number of new watchers, lockstep holds, and new watchers are owned by registered mods. |
| QuickReload.RescanCreatesNoWatchers | Source/QuickReload/Core.cs:46-89 | A second `Load` over the same mods creates no watcher, keeps the watched set, and rebuilds the same groups and method count. |
| QuickReload.Core.constructor | Source/QuickReload/Core.cs:15-18 | The static state starts empty and satisfies the invariant. |
| QuickReload.Core.Load | Source/QuickReload/Core.cs:40-96 | The scan's new state and returned counters are exactly `Discover` of the mods from the old watch state. The invariant is kept, and the patch state is untouched. |
| QuickReload.Core.LoadMod | Source/QuickReload/Core.cs:49-92 | One mod: skipped without assembly information, otherwise walked with a fresh `hasInMod` flag. |
| QuickReload.Core.VisitTypes | Source/QuickReload/Core.cs:56-91 | The walk over one assembly's types is the fold over their events. |
| QuickReload.Core.VisitMethods | Source/QuickReload/Core.cs:58-90 | The walk over one type's methods is the fold over their events, including the watch setup on the mod's first marked method. |
| QuickReload.Core.VisitMethod | Source/QuickReload/Core.cs:60-89 | One method's step is one event of the fold: a marked method is appended to its mod's group and counted, and the mod's first one triggers the watch setup. |
| QuickReload.Core.WatchAll | Source/QuickReload/Core.cs:79-89 | The folder loop is `WatchFolders`. |
| QuickReload.Core.ReloadGroup | Source/QuickReload/Core.cs:135-159 | The loop over a group is exactly `ReloadAll` with the signature matcher. The invariant is kept, and the discovery state is untouched. |
| QuickReload.Core.OnAssemblyChanged | Source/QuickReload/Core.cs:129-162 | An unknown mod throws (nothing changes). Otherwise the group is reloaded as `ReloadAll`, and `completed` is false exactly when an exception reaches the watcher callback. |
| ModCore.LastIndexOf | Source/ModCore/Core.cs:146 | The index of the last occurrence of the character, or -1 when absent. |
| ModCore.StripStamp | Source/ModCore/Core.cs:143-152 | A name without `'_'` gives nothing. Otherwise the result is the name up to its last `'_'`, with no `'_'` after it. |
| ModCore.StripStampOfStamped | Source/ModCore/Core.cs:143-152 | `base + "_" + stamp` strips back to `base` for any stamp without `'_'`, whatever `base` contains. |
| ModCore.CheckStamps | Source/ModCore/Core.cs:143-150 | The check ends the handler exactly when the assembly name or the file name has no `'_'`. |
| ModCore.SameBaseMatches | Source/ModCore/Core.cs:152-157 | Names with the same base match, whatever their stamps and extension. |
| ModCore.DifferentBasesMismatch | Source/ModCore/Core.cs:154-157 | Names with different bases do not match. |
| ModCore.StampExampleMatches | Source/ModCore/Core.cs:143-157 | `Mod_20240101` loaded from `Mod_20240101.dll` passes: both strip to `Mod`. |
| ModCore.StampExampleMismatches | Source/ModCore/Core.cs:154-157 | `OtherMod_20240101` loaded from `Mod_20240101.dll` is a mismatch. |
| ModCore.StampExampleUnstamped | Source/ModCore/Core.cs:143-145 | An assembly named `Mod` ends the handler. |
| ModCore.GetEquivalentMethod | Source/ModCore/Core.cs:188-200 | A missing declaring type throws. A found equivalent has the same declaring type and name, and is the only method of that name declared there. The result is null exactly when the type exists and no declared method has that name. A name declared exactly once is found, as that method. The lookup throws for ambiguity exactly when two declared methods have that name. Parameters and generics play no part. |
| ModCore.OverloadsAreAmbiguous | Source/ModCore/Core.cs:198 | With `Foo(int,int)` and `Foo(int,string)` both rebuilt, looking up `Foo(int,int)` by name throws. |
| ModCore.ParametersIgnored | Source/ModCore/Core.cs:192-198 | A lone rebuilt `Foo(int,string)` is taken as the equivalent of `Foo(int,int)`. |
| ModCore.ScanModsSeen | Source/ModCore/Core.cs:47-59 | The seen set is exactly the content packs of the mods that have assembly information. |
| ModCore.RepeatedContentSkipped | Source/ModCore/Core.cs:53-57 | A mod whose content pack was already met in this scan changes nothing. |
| ModCore.ScanModsGroups | Source/ModCore/Core.cs:48-81 | The scan groups the marked methods of the first mod of each content pack under their (mod, assembly) keys, as `Group` does. |
| ModCore.ScanModsWatches | Source/ModCore/Core.cs:48-98 | The watched set grows by exactly the folders of the walked mods that have a marked method. Watchers only grow, the counter follows, and lockstep is kept. No watcher is created when no new folder is watched. |
| ModCore.ScanModsOwners | Source/ModCore/Core.cs:75-98 | Every watcher the scan creates is owned by a (mod, assembly) group with methods. |
| ModCore.WatchersOwnedByFirstGroup | Source/ModCore/Core.cs:83-95 | All watchers created for a mod carry the (mod, assembly) key of the mod's first marked method. |
| ModCore.LoadGroups | Source/ModCore/Core.cs:46-81 | After `Load`, the groups depend only on the mods. Every group is non-empty, and the method counter is the total group length. |
| ModCore.LoadWatches | Source/ModCore/Core.cs:88-98 | After `Load`, the watched set is the old one plus the walked mods' folders. Old watchers stay, the watcher counter is the number of new watchers, lockstep holds, and new watchers are owned by registered groups. |
| ModCore.RescanCreatesNoWatchers | Source/ModCore/Core.cs:46-98 | A second `Load` over the same mods creates no watcher, keeps the watched set, and rebuilds the same groups and method count. |
| ModCore.Core.constructor | Source/ModCore/Core.cs:15-18 | The static state starts empty and satisfies the invariant. |
| ModCore.Core.Load | Source/ModCore/Core.cs:40-105 | The scan's new state and returned counters are exactly `Discover` of the mods from the old watch state, with a fresh seen set. The invariant is kept, and the patch state is untouched. |
| ModCore.Core.LoadMod | Source/ModCore/Core.cs:50-101 | One mod: skipped without assembly information or when its content pack was seen. Otherwise its pack is marked seen and it is walked with a fresh `hasInMod` flag. |
| ModCore.Core.VisitTypes | Source/ModCore/Core.cs:65-100 | The walk over one assembly's types is the fold over their events. |
| ModCore.Core.VisitMethods | Source/ModCore/Core.cs:67-99 | The walk over one type's methods is the fold over their events, keyed by (mod, assembly), including the watch setup. |
| ModCore.Core.VisitMethod | Source/ModCore/Core.cs:69-98 | One method's step is one event of the fold: a marked method is appended to its (mod, assembly) group and counted, and the mod's first one triggers the watch setup. |
| ModCore.Core.WatchAll | Source/ModCore/Core.cs:88-98 | The folder loop is `WatchFolders`. |
| ModCore.Core.ReloadGroup | Source/ModCore/Core.cs:159-183 | The loop over a group is exactly `ReloadAll` with the name-only matcher. The invariant is kept, and the discovery state is untouched. |
| ModCore.Core.OnAssemblyChanged | Source/ModCore/Core.cs:138-186 | The stamp check comes first, and an unstamped name ends the handler with nothing changed. A mismatch does not stop the reload. An unknown (mod, assembly) key throws (nothing changes). Otherwise the group is reloaded as `ReloadAll`. |

## Left out

- Watcher construction (`MakeWatcher`):
  - A watcher is modelled as its folder and owner. The `FileSystemWatcher` itself, its notify and filter settings, and event delivery are operating-system I/O.
  - The callback's try/catch is modelled by the `completed` result of `OnAssemblyChanged`.
- Loading the new file (`Assembly.Load` of the file's bytes) is I/O. The loaded assembly is a parameter. In the ModCore variant, the file's name is also a parameter, and path parsing is not modelled.
- Reflection enumeration is taken as input sequences:
  - `GetTypes`, `GetMethods` with binding flags, and `GetCustomAttribute`;
  - `GetAllFilesForModPreserveOrder`, given as each mod's list of `.dll` folders.
  - A listed method's `declType` tells which type declares it.
- Patching-library internals: only the engine's own patches are represented. The `Blocker` prefix's effect on calls, the lazily fetched blocker handle, and failures inside the library are not modelled.
- Logging, `Messages.Message`, the `LongEventHandler` scheduling in the constructor and the `Harmony` instance are user interface or host plumbing.
- Concurrency between watcher callbacks: the source takes no lock, and handlers are modelled as sequential calls.
- The marker attribute's `Method` field is represented by the method record itself.
- Object identity: methods, assemblies and content packs are compared by value, not by reference. A null mod handle is not representable; a handle without content is skipped, as null is.
- The counters are unbounded: 32-bit overflow of `methodCount` and `watcherCount` is not modelled.
- QuickReload.GetEquivalentMethod: generic arguments are compared as part of the signature rather than applied with `MakeGenericMethod`, so generic method instantiation is not modelled.
- QuickReload.GetEquivalentMethod: parameter types must be identical. The reflection binder would also accept a method whose parameters are assignable from the given types (a base type, an interface), and its choice among several such candidates is not modelled.

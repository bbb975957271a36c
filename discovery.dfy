/** The discovery scan shared by both engine variants. The nested walk over assemblies,
    types and methods of one mod is flattened into a sequence of events (group key, method
    listing entry); the scan is a left fold of `Visit` over those events. `Visit` records a
    marked method under its key and, for the first marked method of the mod only, watches
    every `.dll` folder of the mod that is not yet watched. */
module Discovery {
  import opened Reflection

  /** A file-system watcher on `folder`, reloading the group `owner` when a file appears. */
  datatype Watcher<K> = Watcher(folder: string, owner: K)

  /** One method listing entry met by the walk, with the key of the group it belongs to. */
  datatype Event<K> = Event(key: K, entry: MethodDef)

  /** The engine's `methods`, `watchedDirectories` and `watchers`, with the scan's counters. */
  datatype ScanState<K(==,!new)> = ScanState(
    methods: map<K, seq<MethodSig>>,
    methodCount: nat,
    watched: set<string>,
    watchers: seq<Watcher<K>>,
    watcherCount: nat)

  /** The scan state inside one mod, with the mod's `hasInMod` flag. */
  datatype Progress<K(==,!new)> = Progress(scan: ScanState<K>, hasInMod: bool)

  function ListOf<K(==,!new)>(methods: map<K, seq<MethodSig>>, key: K): seq<MethodSig>
  {
    if key in methods then methods[key] else []
  }

  /** Get-or-create the group's list, then append the method to it. */
  function Record<K(==,!new)>(methods: map<K, seq<MethodSig>>, key: K, m: MethodSig): (r: map<K, seq<MethodSig>>)
    ensures r.Keys == methods.Keys + {key}
    ensures ListOf(r, key) == ListOf(methods, key) + [m]
    ensures forall k :: k != key ==> ListOf(r, k) == ListOf(methods, k)
  {
    methods[key := ListOf(methods, key) + [m]]
  }

  /** Watch a folder unless it is already watched: one new watcher per new folder. */
  function WatchFolder<K(==,!new)>(st: ScanState<K>, folder: string, owner: K): ScanState<K>
  {
    if folder in st.watched then st
    else st.(watched := st.watched + {folder},
             watchers := st.watchers + [Watcher(folder, owner)],
             watcherCount := st.watcherCount + 1)
  }

  function WatchFolders<K(==,!new)>(st: ScanState<K>, folders: seq<string>, owner: K): ScanState<K>
    decreases |folders|
  {
    if folders == [] then st
    else WatchFolder(WatchFolders(st, folders[..|folders| - 1], owner), folders[|folders| - 1], owner)
  }

  /** One step of the walk. */
  function Visit<K(==,!new)>(p: Progress<K>, folders: seq<string>, e: Event<K>): Progress<K>
  {
    if !e.entry.marked then p
    else
      var recorded := p.scan.(methods := Record(p.scan.methods, e.key, e.entry.sig),
                              methodCount := p.scan.methodCount + 1);
      if p.hasInMod then Progress(recorded, true)
      else Progress(WatchFolders(recorded, folders, e.key), true)
  }

  function ScanEvents<K(==,!new)>(p: Progress<K>, folders: seq<string>, evs: seq<Event<K>>): Progress<K>
    decreases |evs|
  {
    if evs == [] then p
    else Visit(ScanEvents(p, folders, evs[..|evs| - 1]), folders, evs[|evs| - 1])
  }

  /** The events of one type's method listing. */
  function MethodEvents<K(!new)>(key: K, ms: seq<MethodDef>): (r: seq<Event<K>>)
    ensures |r| == |ms|
    ensures forall i :: 0 <= i < |ms| ==> r[i] == Event(key, ms[i])
  {
    seq(|ms|, i requires 0 <= i < |ms| => Event(key, ms[i]))
  }

  /** The events of an assembly's types, in order. */
  function TypeEvents<K(!new)>(key: K, ts: seq<TypeDef>): seq<Event<K>>
    decreases |ts|
  {
    if ts == [] then []
    else TypeEvents(key, ts[..|ts| - 1]) + MethodEvents(key, ts[|ts| - 1].methods)
  }

  // ---------------------------------------------------------------------------
  // Reference definitions: what the scan computes, stated without the watch logic.

  function FolderSet(folders: seq<string>): set<string>
  {
    set f | f in folders
  }

  /** Grouping alone: every marked method appended to its key's list, in walk order. */
  function Group<K(==,!new)>(methods: map<K, seq<MethodSig>>, evs: seq<Event<K>>): map<K, seq<MethodSig>>
    decreases |evs|
  {
    if evs == [] then methods
    else
      var g := Group(methods, evs[..|evs| - 1]);
      var e := evs[|evs| - 1];
      if e.entry.marked then Record(g, e.key, e.entry.sig) else g
  }

  /** The marked methods of key `k`, in walk order. */
  function MarkedFor<K(==,!new)>(evs: seq<Event<K>>, k: K): seq<MethodSig>
    decreases |evs|
  {
    if evs == [] then []
    else
      var e := evs[|evs| - 1];
      MarkedFor(evs[..|evs| - 1], k) + (if e.entry.marked && e.key == k then [e.entry.sig] else [])
  }

  function MarkedCount<K(!new)>(evs: seq<Event<K>>): nat
    decreases |evs|
  {
    if evs == [] then 0
    else MarkedCount(evs[..|evs| - 1]) + (if evs[|evs| - 1].entry.marked then 1 else 0)
  }

  ghost predicate AnyMarked<K(!new)>(evs: seq<Event<K>>)
  {
    exists i :: 0 <= i < |evs| && evs[i].entry.marked
  }

  /** The key of the first marked method of the walk. */
  ghost function FirstMarkedKey<K(!new)>(evs: seq<Event<K>>): K
    requires AnyMarked(evs)
    decreases |evs|
  {
    var pre := evs[..|evs| - 1];
    if AnyMarked(pre) then FirstMarkedKey(pre) else evs[|evs| - 1].key
  }

  /** Some key of a non-empty map. */
  ghost function AnyKey<K(!new)>(methods: map<K, seq<MethodSig>>): (k: K)
    requires |methods| != 0
    ensures k in methods
  {
    var k :| k in methods; k
  }

  /** The sum of the lengths of all lists. */
  ghost function TotalLength<K(!new)>(methods: map<K, seq<MethodSig>>): nat
    decreases |methods|
  {
    if |methods| == 0 then 0
    else
      var k := AnyKey(methods);
      |methods[k]| + TotalLength(methods - {k})
  }

  /** After a scan: no key maps to an empty list, and the counter is the total list length. */
  ghost predicate Registered<K(!new)>(methods: map<K, seq<MethodSig>>, count: nat)
  {
    (forall k :: k in methods ==> methods[k] != []) && count == TotalLength(methods)
  }

  /** Watches in lockstep: the watchers' folders are exactly the watched set, each once. */
  ghost predicate WatchSound<K(!new)>(st: ScanState<K>)
  {
    (set w | w in st.watchers :: w.folder) == st.watched &&
    forall i, j :: 0 <= i < j < |st.watchers| ==> st.watchers[i].folder != st.watchers[j].folder
  }

  // ---------------------------------------------------------------------------
  // Lemmas.

  lemma {:induction false} TotalLengthRemove<K(!new)>(methods: map<K, seq<MethodSig>>, k: K)
    requires k in methods
    ensures TotalLength(methods) == |methods[k]| + TotalLength(methods - {k})
    decreases |methods|, 1
  {
    RemoveShrinks(methods, k);
    var j := AnyKey(methods);
    if j != k {
      TotalLengthSwap(methods, j, k);
    }
  }

  /** Removing either of two keys first gives the same total. */
  lemma {:induction false} TotalLengthSwap<K(!new)>(methods: map<K, seq<MethodSig>>, j: K, k: K)
    requires j in methods && k in methods && j != k
    ensures |methods[j]| + TotalLength(methods - {j}) == |methods[k]| + TotalLength(methods - {k})
    decreases |methods|, 0
  {
    var mj, mk := methods - {j}, methods - {k};
    RemoveShrinks(methods, j);
    RemoveShrinks(methods, k);
    assert k in mj && mj[k] == methods[k];
    assert j in mk && mk[j] == methods[j];
    TotalLengthRemove(mj, k);
    TotalLengthRemove(mk, j);
    RemoveCommutes(methods, j, k);
  }

  lemma RemoveCommutes<K(!new)>(methods: map<K, seq<MethodSig>>, j: K, k: K)
    ensures (methods - {j}) - {k} == (methods - {k}) - {j}
  {
    assert ((methods - {j}) - {k}).Keys == ((methods - {k}) - {j}).Keys;
  }

  lemma RemoveShrinks<K(!new)>(methods: map<K, seq<MethodSig>>, k: K)
    requires k in methods
    ensures |methods - {k}| == |methods| - 1
  {
    assert (methods - {k}).Keys == methods.Keys - {k};
  }

  /** Recording a method adds one to the total list length. */
  lemma RecordAddsOne<K(!new)>(methods: map<K, seq<MethodSig>>, key: K, m: MethodSig)
    ensures TotalLength(Record(methods, key, m)) == TotalLength(methods) + 1
  {
    var r := Record(methods, key, m);
    TotalLengthRemove(r, key);
    if key in methods {
      TotalLengthRemove(methods, key);
      assert r - {key} == methods - {key};
    } else {
      assert r - {key} == methods;
    }
  }

  /** Grouping keeps every list non-empty and the counter equal to the total length. */
  lemma {:induction false} GroupRegistered<K(!new)>(methods: map<K, seq<MethodSig>>, count: nat, evs: seq<Event<K>>)
    requires Registered(methods, count)
    ensures Registered(Group(methods, evs), count + MarkedCount(evs))
    decreases |evs|
  {
    if evs != [] {
      var pre := evs[..|evs| - 1];
      var e := evs[|evs| - 1];
      GroupRegistered(methods, count, pre);
      if e.entry.marked {
        RecordAddsOne(Group(methods, pre), e.key, e.entry.sig);
      }
    }
  }

  /** Grouping appends to each key's list exactly that key's marked methods, in walk order,
      and a key is present afterwards exactly when it was before or got a method. */
  lemma {:induction false} GroupContents<K(!new)>(methods: map<K, seq<MethodSig>>, evs: seq<Event<K>>, k: K)
    ensures ListOf(Group(methods, evs), k) == ListOf(methods, k) + MarkedFor(evs, k)
    ensures k in Group(methods, evs) <==> k in methods || MarkedFor(evs, k) != []
    decreases |evs|
  {
    if evs != [] {
      GroupContents(methods, evs[..|evs| - 1], k);
    }
  }

  lemma {:induction false} GroupAppend<K(!new)>(methods: map<K, seq<MethodSig>>, a: seq<Event<K>>, b: seq<Event<K>>)
    ensures Group(methods, a + b) == Group(Group(methods, a), b)
    ensures MarkedCount(a + b) == MarkedCount(a) + MarkedCount(b)
    decreases |b|
  {
    if b == [] {
      assert a + b == a;
    } else {
      var b' := b[..|b| - 1];
      assert (a + b)[..|a + b| - 1] == a + b';
      GroupAppend(methods, a, b');
    }
  }

  lemma AnyMarkedAppend<K(!new)>(a: seq<Event<K>>, b: seq<Event<K>>)
    ensures AnyMarked(a + b) <==> AnyMarked(a) || AnyMarked(b)
  {
    if AnyMarked(a + b) {
      var i :| 0 <= i < |a + b| && (a + b)[i].entry.marked;
      if i >= |a| { assert b[i - |a|].entry.marked; }
    }
    if AnyMarked(b) {
      var i :| 0 <= i < |b| && b[i].entry.marked;
      assert (a + b)[|a| + i].entry.marked;
    }
    if AnyMarked(a) {
      var i :| 0 <= i < |a| && a[i].entry.marked;
      assert (a + b)[i].entry.marked;
    }
  }

  lemma AnyMarkedSnoc<K(!new)>(evs: seq<Event<K>>)
    requires evs != []
    ensures AnyMarked(evs) <==> AnyMarked(evs[..|evs| - 1]) || evs[|evs| - 1].entry.marked
  {
    assert evs == evs[..|evs| - 1] + [evs[|evs| - 1]];
    AnyMarkedAppend(evs[..|evs| - 1], [evs[|evs| - 1]]);
  }

  /** The first marked method's key gets a non-empty list. */
  lemma {:induction false} FirstMarkedKeyListed<K(!new)>(evs: seq<Event<K>>)
    requires AnyMarked(evs)
    ensures MarkedFor(evs, FirstMarkedKey(evs)) != []
    decreases |evs|
  {
    var pre := evs[..|evs| - 1];
    AnyMarkedSnoc(evs);
    if AnyMarked(pre) {
      FirstMarkedKeyListed(pre);
    }
  }

  lemma ScanEventsSnoc<K(!new)>(p: Progress<K>, folders: seq<string>, evs: seq<Event<K>>, e: Event<K>)
    ensures ScanEvents(p, folders, evs + [e]) == Visit(ScanEvents(p, folders, evs), folders, e)
  {
    assert (evs + [e])[..|evs|] == evs;
  }

  /** The scan of a concatenation is the scan of the second part resumed after the first. */
  lemma {:induction false} ScanEventsAppend<K(!new)>(p: Progress<K>, folders: seq<string>, a: seq<Event<K>>, b: seq<Event<K>>)
    ensures ScanEvents(p, folders, a + b) == ScanEvents(ScanEvents(p, folders, a), folders, b)
    decreases |b|
  {
    if b == [] {
      assert a + b == a;
    } else {
      var pre := b[..|b| - 1];
      ScanEventsAppend(p, folders, a, pre);
      assert a + b == (a + pre) + [b[|b| - 1]];
      ScanEventsSnoc(p, folders, a + pre, b[|b| - 1]);
    }
  }

  /** Watching a folder list adds exactly those folders; a watcher is created only for a
      folder not watched before, carrying the given owner; lockstep is kept. */
  lemma {:induction false} WatchFoldersEffect<K(!new)>(st: ScanState<K>, folders: seq<string>, owner: K)
    ensures var r := WatchFolders(st, folders, owner);
      && r.methods == st.methods && r.methodCount == st.methodCount
      && r.watched == st.watched + FolderSet(folders)
      && st.watchers <= r.watchers
      && r.watcherCount == st.watcherCount + (|r.watchers| - |st.watchers|)
      && (forall i :: |st.watchers| <= i < |r.watchers| ==>
            r.watchers[i].owner == owner && r.watchers[i].folder in r.watched - st.watched)
      && (FolderSet(folders) <= st.watched ==> r == st)
      && (WatchSound(st) ==> WatchSound(r))
    decreases |folders|
  {
    if folders != [] {
      var pre := folders[..|folders| - 1];
      var f := folders[|folders| - 1];
      WatchFoldersEffect(st, pre, owner);
      assert FolderSet(folders) == FolderSet(pre) + {f} by {
        assert folders == pre + [f];
      }
      var mid := WatchFolders(st, pre, owner);
      var r := WatchFolders(st, folders, owner);
      if f !in mid.watched {
        assert r.watchers == mid.watchers + [Watcher(f, owner)];
        if WatchSound(mid) {
          assert (set w | w in r.watchers :: w.folder) == (set w | w in mid.watchers :: w.folder) + {f};
          forall i, j | 0 <= i < j < |r.watchers| ensures r.watchers[i].folder != r.watchers[j].folder {
            if j == |mid.watchers| {
              assert mid.watchers[i] in mid.watchers;
            }
          }
        }
      }
    }
  }

  /** The scan groups exactly as `Group` does and counts the marked methods. */
  lemma {:induction false} ScanGroups<K(!new)>(p: Progress<K>, folders: seq<string>, evs: seq<Event<K>>)
    ensures ScanEvents(p, folders, evs).scan.methods == Group(p.scan.methods, evs)
    ensures ScanEvents(p, folders, evs).scan.methodCount == p.scan.methodCount + MarkedCount(evs)
    decreases |evs|
  {
    if evs != [] {
      var pre := evs[..|evs| - 1];
      var e := evs[|evs| - 1];
      ScanGroups(p, folders, pre);
      if e.entry.marked {
        var mid := ScanEvents(p, folders, pre);
        var recorded := mid.scan.(methods := Record(mid.scan.methods, e.key, e.entry.sig),
                                  methodCount := mid.scan.methodCount + 1);
        WatchFoldersEffect(recorded, folders, e.key);
      }
    }
  }

  /** `hasInMod` is set exactly once a marked method has been met in the mod. */
  lemma {:induction false} ScanFlag<K(!new)>(p: Progress<K>, folders: seq<string>, evs: seq<Event<K>>)
    ensures ScanEvents(p, folders, evs).hasInMod == (p.hasInMod || AnyMarked(evs))
    decreases |evs|
  {
    if evs != [] {
      ScanFlag(p, folders, evs[..|evs| - 1]);
      AnyMarkedSnoc(evs);
    }
  }

  /** Watch setup in one mod: the mod's folders are added only when the mod was not yet
      flagged and has a marked method; watchers only grow, one per newly watched folder, all
      owned by the key of the first marked method; lockstep is kept. */
  lemma {:induction false} ScanWatches<K(!new)>(p: Progress<K>, folders: seq<string>, evs: seq<Event<K>>)
    ensures var r := ScanEvents(p, folders, evs);
      && r.scan.watched == p.scan.watched + (if !p.hasInMod && AnyMarked(evs) then FolderSet(folders) else {})
      && p.scan.watchers <= r.scan.watchers
      && (p.hasInMod || !AnyMarked(evs) || FolderSet(folders) <= p.scan.watched ==>
            r.scan.watchers == p.scan.watchers)
      && r.scan.watcherCount == p.scan.watcherCount + (|r.scan.watchers| - |p.scan.watchers|)
      && (forall i :: |p.scan.watchers| <= i < |r.scan.watchers| ==>
            && r.scan.watchers[i].folder in r.scan.watched - p.scan.watched
            && !p.hasInMod && AnyMarked(evs)
            && r.scan.watchers[i].owner == FirstMarkedKey(evs))
      && (WatchSound(p.scan) ==> WatchSound(r.scan))
    decreases |evs|
  {
    if evs != [] {
      var pre := evs[..|evs| - 1];
      var e := evs[|evs| - 1];
      ScanWatches(p, folders, pre);
      ScanFlag(p, folders, pre);
      AnyMarkedSnoc(evs);
      var mid := ScanEvents(p, folders, pre);
      if AnyMarked(pre) {
        assert FirstMarkedKey(evs) == FirstMarkedKey(pre);
      }
      if e.entry.marked && !mid.hasInMod {
        assert !AnyMarked(pre);
        assert FirstMarkedKey(evs) == e.key;
        var recorded := mid.scan.(methods := Record(mid.scan.methods, e.key, e.entry.sig),
                                  methodCount := mid.scan.methodCount + 1);
        WatchFoldersEffect(recorded, folders, e.key);
        var r := ScanEvents(p, folders, evs);
        assert r.scan == WatchFolders(recorded, folders, e.key);
        assert recorded.watched == p.scan.watched && recorded.watchers == p.scan.watchers;
        assert !p.hasInMod && AnyMarked(evs);
      }
    }
  }

  /** Every watcher a mod's scan creates is owned by a group that already has methods. */
  lemma NewOwnersRegistered<K(!new)>(p: Progress<K>, folders: seq<string>, evs: seq<Event<K>>)
    ensures var r := ScanEvents(p, folders, evs);
      forall i :: |p.scan.watchers| <= i < |r.scan.watchers| ==>
        r.scan.watchers[i].owner in r.scan.methods && r.scan.methods[r.scan.watchers[i].owner] != []
  {
    var r := ScanEvents(p, folders, evs);
    ScanWatches(p, folders, evs);
    ScanGroups(p, folders, evs);
    if |r.scan.watchers| > |p.scan.watchers| {
      assert AnyMarked(evs) by {
        assert r.scan.watchers[|p.scan.watchers|].owner == FirstMarkedKey(evs);
      }
      var k := FirstMarkedKey(evs);
      FirstMarkedKeyListed(evs);
      GroupContents(p.scan.methods, evs, k);
    }
  }
}

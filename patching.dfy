/** The redirection side of a reload: the patching library's per-method patch sets, the
    engine's `patches` table (original -> current replacement), and the teardown-before-install
    step the reload handler runs for each marked method. Only this engine's own patches are
    represented in the patch sets. */
module Patching {
  import opened Reflection

  /** `Priority.First` of the patching library; a higher priority runs earlier. */
  const First: int := 800

  /** The replacement method, or the engine's `Blocker` prefix that skips the original body. */
  datatype PatchMethod = Redirect(target: MethodSig) | Blocker

  datatype Patch = Patch(hook: PatchMethod, priority: int)

  /** The patching library's state: the patches installed on each original method. */
  type PatchTable = map<MethodSig, set<Patch>>

  function PatchesOn(h: PatchTable, original: MethodSig): set<Patch>
  {
    if original in h then h[original] else {}
  }

  /** `Unpatch(original, method)`: every patch of `method` leaves `original`. */
  function Unpatch(h: PatchTable, original: MethodSig, pm: PatchMethod): (r: PatchTable)
    ensures forall p :: p in PatchesOn(r, original) <==> p in PatchesOn(h, original) && p.hook != pm
    ensures forall m :: m != original ==> PatchesOn(r, m) == PatchesOn(h, m)
  {
    h[original := set p | p in PatchesOn(h, original) && p.hook != pm]
  }

  /** `Patch(original, method at priority)`: adds that patch to `original`. */
  function AddPatch(h: PatchTable, original: MethodSig, pm: PatchMethod, priority: int): (r: PatchTable)
    ensures PatchesOn(r, original) == PatchesOn(h, original) + {Patch(pm, priority)}
    ensures forall m :: m != original ==> PatchesOn(r, m) == PatchesOn(h, m)
  {
    h[original := PatchesOn(h, original) + {Patch(pm, priority)}]
  }

  /** What a successful reload leaves on a method: the replacement first, the blocker next. */
  function Installed(replacement: MethodSig): set<Patch>
  {
    {Patch(Redirect(replacement), First), Patch(Blocker, First - 1)}
  }

  /** The engine's `patches` table together with the library's patch sets. */
  datatype PatchState = PatchState(patches: map<MethodSig, MethodSig>, harmony: PatchTable)

  /** The table invariant: a method carries either none of the engine's patches, or exactly the
      pair installed for the replacement `patches` records for it. A table entry may be stale
      (recorded, but its patches already removed). */
  ghost predicate Consistent(st: PatchState)
  {
    forall m :: PatchesOn(st.harmony, m) == {} ||
      (m in st.patches && PatchesOn(st.harmony, m) == Installed(st.patches[m]))
  }

  /** Teardown: when the table has an entry, unpatch its replacement and the blocker. */
  function Teardown(st: PatchState, original: MethodSig): PatchState
  {
    if original in st.patches then
      var h := Unpatch(st.harmony, original, Redirect(st.patches[original]));
      st.(harmony := Unpatch(h, original, Blocker))
    else st
  }

  /** Install: the replacement at `First`, the blocker at `First - 1`, then record it. */
  function Install(st: PatchState, original: MethodSig, replacement: MethodSig): PatchState
  {
    var h := AddPatch(st.harmony, original, Redirect(replacement), First);
    PatchState(st.patches[original := replacement], AddPatch(h, original, Blocker, First - 1))
  }

  /** The state after some prefix of the method list, and whether no exception escaped. */
  datatype Reloaded = Reloaded(state: PatchState, completed: bool)

  /** One iteration of the reload loop: teardown, then install when a replacement is found.
      A missing replacement skips the method; a throwing lookup ends the loop. */
  function ReloadOne(st: PatchState, original: MethodSig, lk: Lookup): Reloaded
  {
    var torn := Teardown(st, original);
    match lk
    case Found(r) => Reloaded(Install(torn, original, r), true)
    case NotFound => Reloaded(torn, true)
    case _ => Reloaded(torn, false)
  }

  /** The reload loop over a group's method list, `find` being the equivalence matcher
      applied to the newly loaded assembly. */
  function ReloadAll(st: PatchState, ms: seq<MethodSig>, find: MethodSig -> Lookup): Reloaded
    decreases |ms|
  {
    if ms == [] then Reloaded(st, true)
    else
      var prev := ReloadAll(st, ms[..|ms| - 1], find);
      if !prev.completed then prev
      else ReloadOne(prev.state, ms[|ms| - 1], find(ms[|ms| - 1]))
  }

  /** What a reload leaves at `m`, given the state before it: the installed pair and a new
      table entry when a replacement was found; otherwise no patches and the table entry
      as it was before (stale, or absent). */
  ghost predicate Settled(after: PatchState, before: PatchState, m: MethodSig, lk: Lookup)
  {
    match lk
    case Found(r) =>
      m in after.patches && after.patches[m] == r && PatchesOn(after.harmony, m) == Installed(r)
    case _ =>
      PatchesOn(after.harmony, m) == {} &&
      (m in after.patches <==> m in before.patches) &&
      (m in before.patches ==> after.patches[m] == before.patches[m])
  }

  /** `m` is untouched between two states. */
  ghost predicate SameAt(a: PatchState, b: PatchState, m: MethodSig)
  {
    PatchesOn(a.harmony, m) == PatchesOn(b.harmony, m) &&
    (m in a.patches <==> m in b.patches) &&
    (m in a.patches ==> a.patches[m] == b.patches[m])
  }

  /** No lookup for the listed methods throws. */
  ghost predicate NoneThrows(ms: seq<MethodSig>, find: MethodSig -> Lookup)
  {
    forall i :: 0 <= i < |ms| ==> !Throws(find(ms[i]))
  }

  /** The methods a run reaches: every method up to and including the first whose lookup throws. */
  ghost function Reached(ms: seq<MethodSig>, find: MethodSig -> Lookup): set<MethodSig>
    decreases |ms|
  {
    if ms == [] then {}
    else if NoneThrows(ms[..|ms| - 1], find) then Reached(ms[..|ms| - 1], find) + {ms[|ms| - 1]}
    else Reached(ms[..|ms| - 1], find)
  }

  /** Teardown-before-install on one method keeps the table invariant; the method ends up
      settled and every other method is untouched. */
  lemma ReloadOneSettles(st: PatchState, m: MethodSig, lk: Lookup)
    requires Consistent(st)
    ensures Consistent(ReloadOne(st, m, lk).state)
    ensures ReloadOne(st, m, lk).completed <==> !Throws(lk)
    ensures Settled(ReloadOne(st, m, lk).state, st, m, lk)
    ensures forall x :: x != m ==> SameAt(ReloadOne(st, m, lk).state, st, x)
  {
    var torn := Teardown(st, m);
    assert PatchesOn(torn.harmony, m) == {};
    var r := ReloadOne(st, m, lk).state;
    forall x ensures PatchesOn(r.harmony, x) == {} ||
      (x in r.patches && PatchesOn(r.harmony, x) == Installed(r.patches[x]))
    {
      if x != m {
        assert PatchesOn(r.harmony, x) == PatchesOn(st.harmony, x);
      }
    }
  }

  /** A run that stopped on a throwing lookup ignores the rest of the list. */
  lemma {:induction false} AbortIsFinal(st: PatchState, ms: seq<MethodSig>, k: nat, find: MethodSig -> Lookup)
    requires k <= |ms|
    requires !ReloadAll(st, ms[..k], find).completed
    ensures ReloadAll(st, ms, find) == ReloadAll(st, ms[..k], find)
    decreases |ms|
  {
    if k < |ms| {
      var pre := ms[..|ms| - 1];
      assert pre[..k] == ms[..k];
      AbortIsFinal(st, pre, k, find);
    } else {
      assert ms[..k] == ms;
    }
  }

  /** The loop runs to the end exactly when no lookup throws. */
  lemma {:induction false} ReloadAllCompletes(st: PatchState, ms: seq<MethodSig>, find: MethodSig -> Lookup)
    ensures ReloadAll(st, ms, find).completed <==> NoneThrows(ms, find)
    decreases |ms|
  {
    if ms != [] {
      var pre := ms[..|ms| - 1];
      ReloadAllCompletes(st, pre, find);
      assert forall i :: 0 <= i < |pre| ==> pre[i] == ms[i];
    }
  }

  /** The reload loop as a whole: every reached method is settled by its own lookup (a
      repeated method is settled the same way each time), unreached methods are untouched,
      and the table invariant is kept. */
  lemma {:induction false} ReloadAllSettles(st: PatchState, ms: seq<MethodSig>, find: MethodSig -> Lookup)
    requires Consistent(st)
    ensures Consistent(ReloadAll(st, ms, find).state)
    ensures forall m :: m in Reached(ms, find) ==> Settled(ReloadAll(st, ms, find).state, st, m, find(m))
    ensures forall m :: m !in Reached(ms, find) ==> SameAt(ReloadAll(st, ms, find).state, st, m)
    decreases |ms|
  {
    if ms != [] {
      var pre := ms[..|ms| - 1];
      var last := ms[|ms| - 1];
      ReloadAllSettles(st, pre, find);
      ReloadAllCompletes(st, pre, find);
      var prev := ReloadAll(st, pre, find);
      if prev.completed {
        var r := ReloadAll(st, ms, find);
        ReloadOneSettles(prev.state, last, find(last));
        assert Reached(ms, find) == Reached(pre, find) + {last};
        forall m | m in Reached(ms, find) ensures Settled(r.state, st, m, find(m)) {
          if m != last {
            assert SameAt(r.state, prev.state, m);
          } else if m in Reached(pre, find) {
            assert Settled(prev.state, st, m, find(m));
          } else {
            assert SameAt(prev.state, st, m);
          }
        }
        forall m | m !in Reached(ms, find) ensures SameAt(r.state, st, m) {
          assert SameAt(r.state, prev.state, m);
        }
      }
    }
  }

  /** Settling a method a second time with the same lookup leaves it as the first time did. */
  lemma SettledAgain(a: PatchState, b: PatchState, c: PatchState, m: MethodSig, lk: Lookup)
    requires Settled(b, a, m, lk) && Settled(c, b, m, lk)
    ensures SameAt(c, b, m)
  {
  }

  /** A repeated trigger for the same rebuild changes nothing further: applying the reload
      loop twice with the same matcher gives the same table and the same patches on every
      method as applying it once. */
  lemma ReloadTwiceIsReloadOnce(st: PatchState, ms: seq<MethodSig>, find: MethodSig -> Lookup)
    requires Consistent(st)
    ensures var once := ReloadAll(st, ms, find);
            var twice := ReloadAll(once.state, ms, find);
            twice.completed == once.completed &&
            twice.state.patches == once.state.patches &&
            forall m :: PatchesOn(twice.state.harmony, m) == PatchesOn(once.state.harmony, m)
  {
    var once := ReloadAll(st, ms, find);
    var twice := ReloadAll(once.state, ms, find);
    ReloadAllCompletes(st, ms, find);
    ReloadAllCompletes(once.state, ms, find);
    ReloadAgainSameEverywhere(st, ms, find);
    SameEverywhereEqualTables(twice.state, once.state);
  }

  lemma ReloadAgainSameEverywhere(st: PatchState, ms: seq<MethodSig>, find: MethodSig -> Lookup)
    requires Consistent(st)
    ensures forall m :: SameAt(ReloadAll(ReloadAll(st, ms, find).state, ms, find).state, ReloadAll(st, ms, find).state, m)
  {
    var once := ReloadAll(st, ms, find);
    ReloadAllSettles(st, ms, find);
    ReloadAllSettles(once.state, ms, find);
    var twice := ReloadAll(once.state, ms, find);
    forall m ensures SameAt(twice.state, once.state, m) {
      if m in Reached(ms, find) {
        SettledAgain(st, once.state, twice.state, m, find(m));
      }
    }
  }

  lemma SameEverywhereEqualTables(a: PatchState, b: PatchState)
    requires forall m :: SameAt(a, b, m)
    ensures a.patches == b.patches
    ensures forall m :: PatchesOn(a.harmony, m) == PatchesOn(b.harmony, m)
  {
    assert forall m :: m in a.patches <==> m in b.patches by {
      forall m ensures m in a.patches <==> m in b.patches { assert SameAt(a, b, m); }
    }
    assert forall m :: m in a.patches ==> a.patches[m] == b.patches[m] by {
      forall m | m in a.patches ensures a.patches[m] == b.patches[m] { assert SameAt(a, b, m); }
    }
    forall m ensures PatchesOn(a.harmony, m) == PatchesOn(b.harmony, m) { assert SameAt(a, b, m); }
  }

  /** Under the table invariant a method never carries two redirections at once. */
  lemma AtMostOneRedirect(st: PatchState, m: MethodSig, p: Patch, q: Patch)
    requires Consistent(st)
    requires p in PatchesOn(st.harmony, m) && q in PatchesOn(st.harmony, m)
    requires p.hook.Redirect? && q.hook.Redirect?
    ensures p == q && p.priority == First
  {
    assert m in st.patches && PatchesOn(st.harmony, m) == Installed(st.patches[m]);
  }
}

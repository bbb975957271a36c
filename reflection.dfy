/** Plain-record stand-ins for the reflection objects the reload engine walks:
    methods, types, assemblies, content packs and mod handles. A method carries the
    reload marker as a flag; the marker's bound method handle is the method record itself. */
module Reflection {

  datatype Option<T> = None | Some(value: T)

  /** A type as a method signature refers to it: the image that defines it and its full name.
      The same name loaded from two images is two different types. */
  datatype TypeRef = TypeRef(assembly: string, fullName: string)

  /** A method handle. `assembly` is the identity of the loaded image the method belongs to,
      so the same signature found in a freshly loaded image is a different handle, as with
      reflection objects. */
  datatype MethodSig = MethodSig(
    assembly: string,
    declType: string,
    name: string,
    params: seq<TypeRef>,
    generics: seq<TypeRef>)

  /** One entry of a type's method listing; `marked` says it carries the reload marker. */
  datatype MethodDef = MethodDef(sig: MethodSig, marked: bool)

  datatype TypeDef = TypeDef(fullName: string, methods: seq<MethodDef>)

  datatype Assembly = Assembly(name: string, types: seq<TypeDef>)

  /** A mod's content: its loaded assemblies (absent when the host exposes none) and the
      directory of every `.dll` file under its `Assemblies/` folders, in listing order. */
  datatype ContentPack = ContentPack(
    id: string,
    loadedAssemblies: Option<seq<Assembly>>,
    dllFolders: seq<string>)

  /** A mod handle; two handles may share one content pack. */
  datatype Mod = Mod(handle: nat, content: Option<ContentPack>)

  /** The assemblies of a mod, or None when the content or its assembly list is absent. */
  function LoadedAssemblies(mod: Mod): (r: Option<seq<Assembly>>)
    ensures r.Some? <==> mod.content.Some? && mod.content.value.loadedAssemblies.Some?
    ensures r.Some? ==> r == mod.content.value.loadedAssemblies
  {
    match mod.content
    case None => None
    case Some(c) => c.loadedAssemblies
  }

  /** The folders to watch for a mod (empty when it has no content). */
  function DllFolders(mod: Mod): seq<string>
  {
    match mod.content
    case None => []
    case Some(c) => c.dllFolders
  }

  /** Case-sensitive lookup of a type by full name: the first type so named, or None. */
  function FindType(types: seq<TypeDef>, fullName: string): (r: Option<TypeDef>)
    ensures r.Some? ==> r.value in types && r.value.fullName == fullName
    ensures r.None? <==> forall t :: t in types ==> t.fullName != fullName
  {
    if types == [] then None
    else if types[0].fullName == fullName then Some(types[0])
    else FindType(types[1..], fullName)
  }

  /** The handles of a method listing, in order. */
  function Sigs(ms: seq<MethodDef>): (r: seq<MethodSig>)
    ensures |r| == |ms|
    ensures forall i :: 0 <= i < |ms| ==> r[i] == ms[i].sig
  {
    seq(|ms|, i requires 0 <= i < |ms| => ms[i].sig)
  }

  /** The handles that `keep` accepts, in their original order: one entry per accepted
      position, so two accepted positions give at least two entries. */
  function Filter(xs: seq<MethodSig>, keep: MethodSig -> bool): (r: seq<MethodSig>)
    ensures |r| <= |xs|
    ensures forall x :: x in r <==> x in xs && keep(x)
    ensures |r| >= 2 <==> TwoKept(xs, keep)
    decreases |xs|
  {
    if xs == [] then []
    else
      var rest := Filter(xs[1..], keep);
      FilterStep(xs, keep, rest);
      if keep(xs[0]) then [xs[0]] + rest else rest
  }

  /** `keep` accepts at least two positions of `xs`. */
  ghost predicate TwoKept(xs: seq<MethodSig>, keep: MethodSig -> bool)
  {
    exists i, j :: 0 <= i < j < |xs| && keep(xs[i]) && keep(xs[j])
  }

  /** One step of `Filter`: the count clause carries over from the tail. */
  lemma FilterStep(xs: seq<MethodSig>, keep: MethodSig -> bool, rest: seq<MethodSig>)
    requires xs != []
    requires forall x :: x in rest <==> x in xs[1..] && keep(x)
    requires |rest| >= 2 <==> TwoKept(xs[1..], keep)
    ensures var r := if keep(xs[0]) then [xs[0]] + rest else rest;
            |r| >= 2 <==> TwoKept(xs, keep)
  {
    var tail := xs[1..];
    if TwoKept(tail, keep) {
      var i, j :| 0 <= i < j < |tail| && keep(tail[i]) && keep(tail[j]);
      assert xs[i + 1] == tail[i] && xs[j + 1] == tail[j];
    }
    if TwoKept(xs, keep) {
      var i, j :| 0 <= i < j < |xs| && keep(xs[i]) && keep(xs[j]);
      assert xs[j] == tail[j - 1];
      if i > 0 {
        assert xs[i] == tail[i - 1];
        assert TwoKept(tail, keep);
      } else {
        assert xs[j] in rest;
      }
    }
    if keep(xs[0]) && |rest| >= 1 {
      assert rest[0] in rest;
      var k :| 0 <= k < |tail| && tail[k] == rest[0];
      assert xs[k + 1] == rest[0];
    }
  }

  /** A handle accepted at exactly one position is all that `Filter` keeps. */
  lemma FilterSingle(xs: seq<MethodSig>, keep: MethodSig -> bool)
    ensures forall i :: 0 <= i < |xs| && keep(xs[i]) &&
                        (forall j :: 0 <= j < |xs| && j != i ==> !keep(xs[j]))
                        ==> Filter(xs, keep) == [xs[i]]
  {
  }

  /** The method handles declared in the type of that full name, or none without it. */
  function DeclaredIn(asm: Assembly, fullName: string): seq<MethodSig>
  {
    match FindType(asm.types, fullName)
    case None => []
    case Some(t) => Sigs(t.methods)
  }

  /** Outcome of looking up the equivalent of a method in a new assembly. `TypeMissing`
      (the declaring type is absent) and `Ambiguous` (several candidates) are thrown as
      exceptions by the reflection calls; `NotFound` is a null result. */
  datatype Lookup = TypeMissing | NotFound | Ambiguous | Found(replacement: MethodSig)

  predicate Throws(lk: Lookup)
  {
    lk.TypeMissing? || lk.Ambiguous?
  }

  /** Reflection's single-method lookup over a candidate list: none is null, one is the
      result, more than one is an ambiguous-match exception. */
  function Resolve(candidates: seq<MethodSig>): (r: Lookup)
    ensures r.NotFound? <==> candidates == []
    ensures r.Found? <==> |candidates| == 1
    ensures r.Found? ==> r.replacement == candidates[0]
    ensures !r.TypeMissing?
  {
    if candidates == [] then NotFound
    else if |candidates| == 1 then Found(candidates[0])
    else Ambiguous
  }
}

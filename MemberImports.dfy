/** The import clauses of member entry: on-demand imports of a package or
    class, static on-demand imports, static named imports and named type
    imports, and the processing of a compilation unit's imports.  The
    static imports walk the hierarchy from the imported type along
    supertypes and interfaces with a set of processed types, so that each
    type is looked at once, and enter the members they import into the
    unit's import scope. */
module MemberImports {
  import opened Wrappers
  import opened JavaText
  import opened MemberSymbols

  const StaticImpOnlyClasses: Text := "static.imp.only.classes.and.interfaces"
  const CantResolveLocation: Text := "cant.resolve.location"
  const DoesntExist: Text := "doesnt.exist"
  const JavaLang: Text := "java.lang"
  const NoJavaLang: Text := "fatal.err.no.java.lang"

  /** The walks the static imports make: for `import static C.*;` the types
      at once and the other members later, for `import static C.n;` the
      same restricted to the members named `n`. */
  /** A package or class whose members an on-demand import imports: its
      kind, full name, member entries and whether it exists. */
  datatype Target = Target(kind: Kind, fullname: Text, members: seq<SymId>, exists_: bool)

  /** The exceptions a missing java.lang ends the compilation with. */
  datatype ImportFailure = CompletionFailure(detail: Text) | MissingPlatformError(detail: Text)

  datatype Walk = StarTypes | StarStatics | NamedTypes(name: Text) | NamedStatics(name: Text)

  predicate IsStar(w: Walk) {
    w.StarTypes? || w.StarStatics?
  }

  /** The entry is one the walk looks at: every entry of the scope for an
      on-demand import, the entries with the name for a named one. */
  predicate Looked(w: Walk, sym: Sym) {
    IsStar(w) || sym.name == w.name
  }

  /** A static member, accessible everywhere in the package, that is a
      member of the imported type. */
  predicate Importable(h: Hierarchy, origin: TypeId, packge: PackageId, id: SymId)
    requires id in h.syms
  {
    Static in h.syms[id].flags && StaticImportAccessible(h.syms[id], packge) && (id, origin) in h.memberOf
  }

  /** What the walk enters: types for the walks made at once, other static
      members for the later ones. */
  predicate Wanted(h: Hierarchy, w: Walk, origin: TypeId, packge: PackageId, id: SymId)
    requires id in h.syms
  {
    Looked(w, h.syms[id]) && Importable(h, origin, packge, id)
    && (if w.StarTypes? || w.NamedTypes? then h.syms[id].kind == Typ else h.syms[id].kind != Typ)
  }

  /** What the walk enters whatever the scope already holds: every entry
      it is after for an on-demand import (once), and the methods with the
      name for a named one, which may overload each other. */
  predicate MustEnter(h: Hierarchy, w: Walk, origin: TypeId, packge: PackageId, id: SymId)
    requires id in h.syms
  {
    Wanted(h, w, origin, packge, id) && (IsStar(w) || (w.NamedStatics? && h.syms[id].kind == Mth))
  }

  /** `u` is reached from `origin` along supertypes and interfaces. */
  ghost predicate Reachable(h: Hierarchy, origin: TypeId, u: TypeId) {
    exists p :: IsPath(h, p) && |p| > 0 && p[0] == origin && p[|p| - 1] == u
  }

  /** The scope holds every member of `u` the walk must enter. */
  ghost predicate AllEnteredIn(h: Hierarchy, w: Walk, origin: TypeId, packge: PackageId, u: TypeId, scope: seq<SymId>)
    requires Closed(h) && u in h.members
  {
    forall k :: 0 <= k < |h.members[u]| && MustEnter(h, w, origin, packge, h.members[u][k]) ==> h.members[u][k] in scope
  }

  /** Some member of `u` is one the walk looks at and is importable. */
  ghost predicate HasMatchIn(h: Hierarchy, w: Walk, origin: TypeId, packge: PackageId, u: TypeId)
    requires Closed(h) && u in h.members
  {
    exists k :: 0 <= k < |h.members[u]| && Looked(w, h.syms[h.members[u][k]]) && Importable(h, origin, packge, h.members[u][k])
  }

  /** A walk of the hierarchy, from `origin`, entering what it imports
      into `toScope`.  For a named static import of non-types, `found`
      records whether some member with the name was importable.  The
      order in which the types' members are looked at, the types whose
      walk is under way (those of the recursion of importFrom) and a walk
      to each processed type are kept for the proofs. */
  class ImportWalk {
    const h: Hierarchy
    const walk: Walk
    const origin: TypeId
    const packge: PackageId
    /** Check.checkUniqueStaticImport for a named import into the scope. */
    const unique: (SymId, seq<SymId>) -> bool
    const start: nat
    var toScope: seq<SymId>
    var processed: set<TypeId>
    var found: bool
    ghost var order: seq<TypeId>
    ghost var stack: seq<TypeId>
    ghost var paths: map<TypeId, seq<TypeId>>

    ghost predicate Valid()
      reads this
    {
      Visited() && Entered() && Found()
    }

    /** Each type is looked at once, each processed type is reached from
        the imported type, and a type whose members were looked at had its
        supertype and interfaces processed. */
    ghost predicate Visited()
      reads this`processed, this`stack, this`order, this`paths
    {
      && Closed(h) && origin in h.members
      && processed <= h.members.Keys
      && (forall i :: 0 <= i < |stack| ==> stack[i] in processed)
      && NoDup(order)
      && (forall i :: 0 <= i < |order| ==> order[i] in processed && order[i] !in stack)
      && (forall u :: u in processed ==> u in paths && WalkTo(paths[u], u))
      && (forall u :: u in processed && u !in stack ==> SuccIn(h, u, processed))
    }

    /** What the walk entered is what it is after, once for an on-demand
        import, and an on-demand import entered every member it is after of
        the types whose members it looked at. */
    ghost predicate Entered()
      reads this`toScope, this`processed, this`stack
    {
      && Closed(h) && processed <= h.members.Keys
      && start <= |toScope|
      && (forall k :: start <= k < |toScope| ==> toScope[k] in h.syms && Wanted(h, walk, origin, packge, toScope[k]))
      && (IsStar(walk) ==> NoDup(toScope))
      && (forall u :: u in processed && u !in stack ==> AllEntered(u))
    }

    /** For a named static import, some member with the name was
        importable in a type whose members were looked at. */
    ghost predicate Found()
      reads this`found, this`processed, this`stack
    {
      && Closed(h) && processed <= h.members.Keys
      && (walk.NamedStatics? ==> (found <==> exists u :: u in processed && u !in stack && HasMatch(u)))
    }

    /** `p` is a walk of the hierarchy from the imported type to `u`. */
    ghost predicate WalkTo(p: seq<TypeId>, u: TypeId) {
      IsPath(h, p) && |p| > 0 && p[0] == origin && p[|p| - 1] == u
    }

    /** The scope holds every member of `u` the walk must enter. */
    ghost predicate AllEntered(u: TypeId)
      requires Closed(h) && u in h.members
      reads this`toScope
    {
      AllEnteredIn(h, walk, origin, packge, u, toScope)
    }

    /** Some member of `u` has the name and is importable. */
    ghost predicate HasMatch(u: TypeId)
      requires Closed(h) && u in h.members
    {
      HasMatchIn(h, walk, origin, packge, u)
    }

    constructor(hierarchy: Hierarchy, w: Walk, from: TypeId, pkg: PackageId,
                uniqueImport: (SymId, seq<SymId>) -> bool, scope: seq<SymId>)
      requires Closed(hierarchy) && from in hierarchy.members && (IsStar(w) ==> NoDup(scope))
      ensures Valid()
      ensures h == hierarchy && walk == w && origin == from && packge == pkg && unique == uniqueImport
      ensures toScope == scope && start == |scope| && processed == {} && stack == [] && !found
    {
      h := hierarchy;
      walk := w;
      origin := from;
      packge := pkg;
      unique := uniqueImport;
      start := |scope|;
      toScope := scope;
      processed := {};
      found := false;
      order := [];
      stack := [];
      paths := map[];
    }

    /** importFrom: a type not yet processed is added to the processed
        set, its supertype and interfaces are walked first, then its
        member entries are looked at. */
    method ImportFrom(t: Option<TypeId>, ghost via: seq<TypeId>)
      requires Valid()
      requires t.Some? ==> t.value in h.members && IsPath(h, via) && |via| > 0 && via[0] == origin && via[|via| - 1] == t.value
      modifies this
      decreases |h.members.Keys - processed|, 2
      ensures Valid()
      ensures old(processed) <= processed && stack == old(stack)
      ensures old(toScope) <= toScope
      ensures t.Some? ==> t.value in processed
    {
      if t.None? || t.value in processed {
        return;
      }
      var u := t.value;
      Mark(u, via);
      WalkSupertypes(u, via, old(processed));
      ghost var s2 := toScope;
      var hit := EnterMembers(u);
      ghost var s3 := toScope;
      Finish(u, hit);
      PrefixTrans(old(toScope), s2, s3);
    }

    /** The type joins the processed set, and its walk is under way. */
    method Mark(u: TypeId, ghost via: seq<TypeId>)
      requires Valid() && u in h.members && u !in processed && WalkTo(via, u)
      modifies this`processed, this`stack, this`paths
      ensures Valid()
      ensures processed == old(processed) + {u} && stack == old(stack) + [u]
    {
      processed := processed + {u};
      stack := stack + [u];
      paths := paths[u := via];
    }

    /** The walk of the type is over: its supertype and interfaces are
        processed and its members were looked at. */
    method Finish(u: TypeId, hit: bool)
      requires Valid() && u in processed && |stack| > 0 && stack[|stack| - 1] == u
      requires SuccIn(h, u, processed) && AllEntered(u) && (hit <==> HasMatch(u))
      requires u !in stack[..|stack| - 1] && u !in order
      modifies this`stack, this`order, this`found
      ensures Valid()
      ensures stack == old(stack)[..|old(stack)| - 1]
    {
      stack := stack[..|stack| - 1];
      order := order + [u];
      if walk.NamedStatics? {
        found := found || hit;
      }
    }

    /** The supertype of `u`, which is being processed, and then its
        interfaces are walked. */
    method WalkSupertypes(u: TypeId, ghost via: seq<TypeId>, ghost before: set<TypeId>)
      requires Valid() && u in h.members && u !in before && before + {u} <= processed && |stack| > 0 && stack[|stack| - 1] == u
      requires WalkTo(via, u)
      modifies this
      decreases |h.members.Keys - before|, 1
      ensures Valid()
      ensures old(processed) <= processed && stack == old(stack)
      ensures old(toScope) <= toScope
      ensures SuccIn(h, u, processed)
    {
      ghost var s1 := toScope;
      if u in h.supertype {
        var v := h.supertype[u];
        PathExtends(h, via, v);
        FewerLeft(h.members.Keys, before, processed, u);
        ImportFrom(Some(v), via + [v]);
      }
      ghost var s2 := toScope;
      WalkInterfaces(u, via, before);
      PrefixTrans(s1, s2, toScope);
    }

    /** The loop of importFrom over the interfaces of `u`. */
    method WalkInterfaces(u: TypeId, ghost via: seq<TypeId>, ghost before: set<TypeId>)
      requires Valid() && u in h.members && u !in before && before + {u} <= processed && |stack| > 0 && stack[|stack| - 1] == u
      requires WalkTo(via, u)
      modifies this
      decreases |h.members.Keys - before|, 0
      ensures Valid()
      ensures old(processed) <= processed && stack == old(stack)
      ensures old(toScope) <= toScope
      ensures forall k :: 0 <= k < |Interfaces(h, u)| ==> Interfaces(h, u)[k] in processed
    {
      var ifs := Interfaces(h, u);
      var i := 0;
      while i < |ifs|
        invariant Valid() && 0 <= i <= |ifs|
        invariant old(processed) <= processed && stack == old(stack)
        invariant old(toScope) <= toScope
        invariant forall k :: 0 <= k < i ==> ifs[k] in processed
      {
        PathExtends(h, via, ifs[i]);
        FewerLeft(h.members.Keys, before, processed, u);
        ghost var p1 := processed;
        ImportFrom(Some(ifs[i]), via + [ifs[i]]);
        PrefixIn(ifs, i, p1, processed);
        i := i + 1;
      }
    }

    /** The loop over the type's member entries: an entry the walk is
        after is entered unless, for an on-demand import, the scope
        includes it already, or, for a named import, the uniqueness check
        fails (a method of a named static import is entered without it). */
    method EnterMembers(u: TypeId) returns (hit: bool)
      requires Valid() && u in processed && u in stack
      modifies this`toScope
      ensures Valid()
      ensures old(toScope) <= toScope
      ensures AllEntered(u)
      ensures hit <==> HasMatch(u)
    {
      var ms := h.members[u];
      hit := false;
      var j := 0;
      while j < |ms|
        invariant Valid() && 0 <= j <= |ms|
        invariant old(toScope) <= toScope
        invariant forall k :: 0 <= k < j && MustEnter(h, walk, origin, packge, ms[k]) ==> ms[k] in toScope
        invariant hit <==> exists k :: 0 <= k < j && Looked(walk, h.syms[ms[k]]) && Importable(h, origin, packge, ms[k])
      {
        var id := ms[j];
        if Looked(walk, h.syms[id]) && Importable(h, origin, packge, id) {
          hit := true;
        }
        if Wanted(h, walk, origin, packge, id) {
          var enter := if IsStar(walk) then id !in toScope
                       else (walk.NamedStatics? && h.syms[id].kind == Mth) || unique(id, toScope);
          if enter {
            toScope := toScope + [id];
          }
        }
        j := j + 1;
      }
    }

    /** The whole walk from the imported type: afterwards the processed
        types are exactly those reached from it, each looked at once. */
    method Run()
      requires Valid() && processed == {} && stack == [] && !found
      modifies this
      ensures Valid() && stack == []
      ensures forall u :: u in processed <==> u in h.members && Reachable(h, origin, u)
      ensures old(toScope) <= toScope
    {
      ImportFrom(Some(origin), [origin]);
      assert SuccClosed(h, processed);
      forall u | u in h.members && Reachable(h, origin, u) ensures u in processed {
        var p :| IsPath(h, p) && |p| > 0 && p[0] == origin && p[|p| - 1] == u;
        ClosedHoldsPath(h, processed, p);
      }
      forall u | u in processed ensures Reachable(h, origin, u) {
        assert IsPath(h, paths[u]) && |paths[u]| > 0 && paths[u][0] == origin && paths[u][|paths[u]| - 1] == u;
      }
    }
  }

  /** The scope holds every member of `u` that a static on-demand import
      from `origin` imports. */
  ghost predicate AllImported(h: Hierarchy, origin: TypeId, packge: PackageId, u: TypeId, scope: seq<SymId>)
    requires Closed(h) && u in h.members
  {
    forall k :: 0 <= k < |h.members[u]| && Importable(h, origin, packge, h.members[u][k]) ==> h.members[u][k] in scope
  }

  /** One whole walk from the imported type into the scope: the scope
      only grows, by entries the walk is after (without duplicates for an
      on-demand import), and afterwards holds every member the walk must
      enter of every type reachable from the imported one; `found` says
      whether one of those types has a member the walk looks at that is
      importable. */
  method RunWalk(h: Hierarchy, w: Walk, origin: TypeId, packge: PackageId,
                 unique: (SymId, seq<SymId>) -> bool, scope: seq<SymId>)
    returns (r: seq<SymId>, found: bool)
    requires Closed(h) && origin in h.members && (IsStar(w) ==> NoDup(scope))
    ensures scope <= r
    ensures forall k :: |scope| <= k < |r| ==> r[k] in h.syms && Wanted(h, w, origin, packge, r[k])
    ensures IsStar(w) ==> NoDup(r)
    ensures forall u :: u in h.members && Reachable(h, origin, u) ==> AllEnteredIn(h, w, origin, packge, u, r)
    ensures w.NamedStatics? ==>
      (found <==> exists u :: u in h.members && Reachable(h, origin, u) && HasMatchIn(h, w, origin, packge, u))
  {
    var walk := new ImportWalk(h, w, origin, packge, unique, scope);
    walk.Run();
    r, found := walk.toScope, walk.found;
    forall u | u in h.members && Reachable(h, origin, u) ensures AllEnteredIn(h, w, origin, packge, u, r) {
      assert walk.AllEntered(u);
    }
  }

  /** importStaticAll: the static member types of every type reachable
      from `origin` are entered at once, then its other static members;
      nothing is entered twice and everything entered is a static member
      of `origin` accessible in the package. */
  method ImportStaticAll(h: Hierarchy, origin: TypeId, packge: PackageId, scope: seq<SymId>) returns (r: seq<SymId>)
    requires Closed(h) && origin in h.members && NoDup(scope)
    ensures scope <= r && NoDup(r)
    ensures forall k :: |scope| <= k < |r| ==> r[k] in h.syms && Importable(h, origin, packge, r[k])
    ensures forall u :: u in h.members && Reachable(h, origin, u) ==> AllImported(h, origin, packge, u, r)
  {
    var types, _ := RunWalk(h, StarTypes, origin, packge, (id: SymId, sc: seq<SymId>) => true, scope);
    var found;
    r, found := RunWalk(h, StarStatics, origin, packge, (id: SymId, sc: seq<SymId>) => true, types);
    PrefixTrans(scope, types, r);
    forall k | |scope| <= k < |r| ensures r[k] in h.syms && Importable(h, origin, packge, r[k]) {
      if k < |types| {
        assert r[k] == types[k];
      }
    }
    forall u | u in h.members && Reachable(h, origin, u) ensures AllImported(h, origin, packge, u, r) {
      assert AllEnteredIn(h, StarTypes, origin, packge, u, types) && AllEnteredIn(h, StarStatics, origin, packge, u, r);
    }
  }

  /** Some member of `u` named `name` is static, accessible in the package
      and a member of `origin`. */
  ghost predicate Declares(h: Hierarchy, origin: TypeId, packge: PackageId, name: Text, u: TypeId)
    requires Closed(h) && u in h.members
  {
    exists k :: 0 <= k < |h.members[u]| && h.syms[h.members[u][k]].name == name && Importable(h, origin, packge, h.members[u][k])
  }

  /** The scope holds every method named `name` of `u` that a static
      import from `origin` imports. */
  ghost predicate MethodsImported(h: Hierarchy, origin: TypeId, packge: PackageId, name: Text, u: TypeId, scope: seq<SymId>)
    requires Closed(h) && u in h.members
  {
    forall k :: 0 <= k < |h.members[u]| && ImportableMethod(h, origin, packge, name, h.members[u][k]) ==> h.members[u][k] in scope
  }

  /** A static method named `name` that a static import from `origin`
      imports. */
  predicate ImportableMethod(h: Hierarchy, origin: TypeId, packge: PackageId, name: Text, id: SymId)
    requires id in h.syms
  {
    h.syms[id].name == name && h.syms[id].kind == Mth && Importable(h, origin, packge, id)
  }

  /** importNamedStatic: only a class or interface can be imported from;
      otherwise the import is reported and nothing is entered.  From a
      type, the static members named `name` of the reachable types are
      entered: types and fields subject to the uniqueness check, methods
      always; when none of the reachable types has such a member, the
      import is reported once. */
  method ImportNamedStatic(h: Hierarchy, kind: Kind, origin: TypeId, name: Text, packge: PackageId,
                           scope: seq<SymId>, unique: (SymId, seq<SymId>) -> bool)
    returns (r: seq<SymId>, errors: seq<Text>)
    requires Closed(h) && (kind == Typ ==> origin in h.members)
    ensures kind != Typ ==> r == scope && errors == [StaticImpOnlyClasses]
    ensures kind == Typ ==> scope <= r
    ensures kind == Typ ==> forall k :: |scope| <= k < |r| ==> r[k] in h.syms && h.syms[r[k]].name == name && Importable(h, origin, packge, r[k])
    ensures kind == Typ ==> forall u :: u in h.members && Reachable(h, origin, u) ==> MethodsImported(h, origin, packge, name, u, r)
    ensures kind == Typ ==> errors == [] || errors == [CantResolveLocation]
    ensures kind == Typ ==> (errors == [CantResolveLocation] <==> forall u :: u in h.members && Reachable(h, origin, u) ==> !Declares(h, origin, packge, name, u))
  {
    if kind != Typ {
      return scope, [StaticImpOnlyClasses];
    }
    var types, _ := RunWalk(h, NamedTypes(name), origin, packge, unique, scope);
    var found;
    r, found := RunWalk(h, NamedStatics(name), origin, packge, unique, types);
    errors := if found then [] else [CantResolveLocation];
    PrefixTrans(scope, types, r);
    forall k | |scope| <= k < |r| ensures r[k] in h.syms && h.syms[r[k]].name == name && Importable(h, origin, packge, r[k]) {
      if k < |types| {
        assert r[k] == types[k];
      }
    }
    forall u | u in h.members && Reachable(h, origin, u) ensures MethodsImported(h, origin, packge, name, u, r) {
      assert AllEnteredIn(h, NamedStatics(name), origin, packge, u, r);
    }
    forall u | u in h.members && Reachable(h, origin, u)
      ensures HasMatchIn(h, NamedStatics(name), origin, packge, u) <==> Declares(h, origin, packge, name, u) {
    }
  }

  /** Scope.importAll on the star import scope (Scope.java is not part of
      this model): each type among the entries that the scope does not
      include yet is entered, in order. */
  function StarImportAll(h: Hierarchy, scope: seq<SymId>, ms: seq<SymId>): (r: seq<SymId>)
    requires forall id :: id in ms ==> id in h.syms
    ensures scope <= r
    ensures NoDup(scope) ==> NoDup(r)
    ensures forall k :: |scope| <= k < |r| ==> r[k] in ms && h.syms[r[k]].kind == Typ
    ensures forall k :: 0 <= k < |ms| && h.syms[ms[k]].kind == Typ ==> ms[k] in r
    decreases |ms|
  {
    if |ms| == 0 then scope
    else
      var n := |ms| - 1;
      var p := StarImportAll(h, scope, ms[..n]);
      assert forall k :: |scope| <= k < |p| ==> p[k] in ms by {
        forall k | |scope| <= k < |p| ensures p[k] in ms {
          var x := p[k];
          assert x in ms[..n];
        }
      }
      assert forall k :: 0 <= k < n ==> ms[k] == ms[..n][k];
      if h.syms[ms[n]].kind == Typ && ms[n] !in p then p + [ms[n]] else p
  }

  /** The imported package is missing: it has no members and does not
      exist. */
  predicate Missing(t: Target) {
    t.kind == Pck && |t.members| == 0 && !t.exists_
  }

  /** importAll: a missing java.lang ends the compilation (as a completion
      failure when missing java.lang is to be ignored, otherwise as
      MissingPlatformError); any other missing package is reported and the
      import goes on; the types among the members are entered. */
  function ImportAll(h: Hierarchy, t: Target, ignoreNoLang: bool, scope: seq<SymId>): (r: Result<(seq<SymId>, seq<Text>), ImportFailure>)
    requires forall id :: id in t.members ==> id in h.syms
    ensures r.Failure? <==> Missing(t) && t.fullname == JavaLang
    ensures r.Failure? ==> r.error == (if ignoreNoLang then CompletionFailure(NoJavaLang) else MissingPlatformError(NoJavaLang))
    ensures r.Success? ==> r.value.1 == (if Missing(t) then [DoesntExist] else [])
    ensures r.Success? ==> r.value.0 == StarImportAll(h, scope, t.members)
  {
    if Missing(t) && t.fullname == JavaLang then
      Failure(if ignoreNoLang then CompletionFailure(NoJavaLang) else MissingPlatformError(NoJavaLang))
    else
      Success((StarImportAll(h, scope, t.members), if Missing(t) then [DoesntExist] else []))
  }

  /** importNamed: a type, or an erroneous symbol, is entered when the
      uniqueness check lets it in. */
  function ImportNamed(kind: Kind, id: SymId, uniqueImport: (SymId, seq<SymId>) -> bool, scope: seq<SymId>): (r: seq<SymId>)
    ensures scope <= r && |r| <= |scope| + 1
    ensures |r| == |scope| + 1 <==> (kind == Typ || kind == Err) && uniqueImport(id, scope)
    ensures |r| == |scope| + 1 ==> r[|scope|] == id
  {
    if (kind == Typ || kind == Err) && uniqueImport(id, scope) then scope + [id] else scope
  }

  /** A walk extended by a supertype or an interface of its last type is a
      walk. */
  lemma PathExtends(h: Hierarchy, p: seq<TypeId>, v: TypeId)
    requires IsPath(h, p) && |p| > 0 && Succ(h, p[|p| - 1], v)
    ensures IsPath(h, p + [v])
  {
    var q := p + [v];
    forall i | 0 <= i < |q| - 1 ensures Succ(h, q[i], q[i + 1]) {
      if i < |p| - 1 {
        assert q[i] == p[i] && q[i + 1] == p[i + 1];
      }
    }
  }

  /** The interfaces walked so far stay processed as the set grows. */
  lemma PrefixIn(ifs: seq<TypeId>, i: nat, before: set<TypeId>, now: set<TypeId>)
    requires i < |ifs| && (forall k :: 0 <= k < i ==> ifs[k] in before) && before <= now && ifs[i] in now
    ensures forall k :: 0 <= k < i + 1 ==> ifs[k] in now
  {
  }

  lemma PrefixTrans(a: seq<SymId>, b: seq<SymId>, c: seq<SymId>)
    requires a <= b && b <= c
    ensures a <= c
  {
    assert a == b[..|a|] && b == c[..|b|];
  }

  /** Processing one more type leaves fewer types to process. */
  lemma FewerLeft(all: set<TypeId>, before: set<TypeId>, now: set<TypeId>, u: TypeId)
    requires u in all && u !in before && before + {u} <= now
    ensures |all - now| < |all - before|
  {
    assert all - now <= (all - before) - {u};
    SubsetSize(all - now, (all - before) - {u});
  }

  lemma {:induction false} SubsetSize(a: set<TypeId>, b: set<TypeId>)
    requires a <= b
    ensures |a| <= |b|
    decreases |b|
  {
    if a != {} {
      var x :| x in a;
      SubsetSize(a - {x}, b - {x});
    }
  }
}

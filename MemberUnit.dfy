/** A compilation unit's import clauses as member entry processes them: the
    unit's star import scope and named import scope, the diagnostics
    logged, and the on-demand import of java.lang that comes first.  A
    completion failure thrown while a tree is processed is caught and
    reported, and processing goes on with the next tree; a
    MissingPlatformError ends it. */
module MemberUnit {
  import opened Wrappers
  import opened JavaText
  import opened MemberSymbols
  import opened MemberImports

  /** An import clause, with the symbol its qualifier attributes to (and,
      for a named type import, the imported type's symbol); a class
      declaration among the unit's trees is left alone here. */
  datatype Clause =
    | OnDemand(target: Target)
    | StaticOnDemand(origin: TypeId)
    | NamedStatic(kind: Kind, origin: TypeId, name: Text)
    | NamedType(kind: Kind, id: SymId)
    | ClassDef

  /** An error logged under its key, or a completion failure reported by
      Check.completionError (Check.java is not part of this model). */
  datatype LogEntry = Error(key: Text) | CompletionError(detail: Text)

  function Errors(keys: seq<Text>): (r: seq<LogEntry>)
    ensures |r| == |keys| && forall i :: 0 <= i < |keys| ==> r[i] == Error(keys[i])
  {
    seq(|keys|, i requires 0 <= i < |keys| => Error(keys[i]))
  }

  /** The symbols of the clause are in the hierarchy. */
  predicate ClauseFits(h: Hierarchy, c: Clause) {
    match c
    case OnDemand(t) => forall id :: id in t.members ==> id in h.syms
    case StaticOnDemand(o) => o in h.members
    case NamedStatic(k, o, _) => k == Typ ==> o in h.members
    case _ => true
  }

  /** What the import scopes hold once the clause is processed: the types
      of an on-demand import, every static member a static on-demand import
      reaches, and every method a static named import reaches. */
  ghost predicate Imported(h: Hierarchy, packge: PackageId, unique: (SymId, seq<SymId>) -> bool, c: Clause,
                          star: seq<SymId>, named: seq<SymId>)
    requires Closed(h) && ClauseFits(h, c)
  {
    match c
    case OnDemand(t) =>
      forall k :: 0 <= k < |t.members| && h.syms[t.members[k]].kind == Typ ==> t.members[k] in star
    case StaticOnDemand(o) =>
      forall u :: u in h.members && Reachable(h, o, u) ==> AllImported(h, o, packge, u, star)
    case NamedStatic(k, o, n) =>
      k == Typ ==> forall u :: u in h.members && Reachable(h, o, u) ==> MethodsImported(h, o, packge, n, u, named)
    case NamedType(k, id) =>
      (k == Typ || k == Err) ==> id in named || exists j :: 0 <= j <= |named| && !unique(id, named[..j])
    case ClassDef => true
  }

  /** Whether a clause makes memberEnter throw MissingPlatformError: an
      on-demand import of a missing java.lang, unless that is to be
      ignored. */
  predicate FatalClause(c: Clause, ignoreNoLang: bool) {
    c.OnDemand? && Missing(c.target) && c.target.fullname == JavaLang && !ignoreNoLang
  }

  /** What memberEnter of one clause logs: importAll's report of a missing
      package, or the reported completion failure of a missing java.lang
      when that is to be ignored; importNamedStatic's refusal of a
      qualifier that is not a type, and its report of a name that no type
      reachable from the qualifier declares.  The other clauses log
      nothing. */
  ghost function ClauseLog(h: Hierarchy, packge: PackageId, ignoreNoLang: bool, c: Clause): (r: seq<LogEntry>)
    requires Closed(h) && ClauseFits(h, c)
    ensures |r| <= 1
    ensures FatalClause(c, ignoreNoLang) ==> r == []
  {
    match c
    case OnDemand(t) =>
      if Missing(t) && t.fullname == JavaLang then (if ignoreNoLang then [CompletionError(NoJavaLang)] else [])
      else if Missing(t) then [Error(DoesntExist)]
      else []
    case NamedStatic(k, o, n) =>
      if k != Typ then [Error(StaticImpOnlyClasses)]
      else if forall u :: u in h.members && Reachable(h, o, u) ==> !Declares(h, o, packge, n, u) then [Error(CantResolveLocation)]
      else []
    case _ => []
  }

  /** What memberEnter of the clauses logs, one clause after the other. */
  ghost function DefsLog(h: Hierarchy, packge: PackageId, ignoreNoLang: bool, cs: seq<Clause>): seq<LogEntry>
    requires Closed(h) && forall i :: 0 <= i < |cs| ==> ClauseFits(h, cs[i])
  {
    if |cs| == 0 then []
    else DefsLog(h, packge, ignoreNoLang, cs[..|cs| - 1]) + ClauseLog(h, packge, ignoreNoLang, cs[|cs| - 1])
  }

  /** java.lang has a type among its members. */
  predicate HasType(h: Hierarchy, t: Target)
    requires forall id :: id in t.members ==> id in h.syms
  {
    exists k :: 0 <= k < |t.members| && h.syms[t.members[k]].kind == Typ
  }

  lemma LogTrans(a: seq<LogEntry>, b: seq<LogEntry>, c: seq<LogEntry>)
    requires a <= b && b <= c
    ensures a <= c
  {
    assert a == b[..|a|] && b == c[..|b|];
  }

  /** Scopes only grow, so what a clause imported stays imported. */
  lemma ImportedGrows(h: Hierarchy, packge: PackageId, unique: (SymId, seq<SymId>) -> bool, c: Clause, star: seq<SymId>, named: seq<SymId>,
                      star': seq<SymId>, named': seq<SymId>)
    requires Closed(h) && ClauseFits(h, c) && star <= star' && named <= named'
    requires Imported(h, packge, unique, c, star, named)
    ensures Imported(h, packge, unique, c, star', named')
  {
    assert forall x :: x in star ==> x in star' by {
      forall x | x in star ensures x in star' {
        var i :| 0 <= i < |star| && star[i] == x;
        assert star'[i] == x;
      }
    }
    assert forall x :: x in named ==> x in named' by {
      forall x | x in named ensures x in named' {
        var i :| 0 <= i < |named| && named[i] == x;
        assert named'[i] == x;
      }
    }
    if c.NamedType? && (c.kind == Typ || c.kind == Err) && c.id !in named {
      var j :| 0 <= j <= |named| && !unique(c.id, named[..j]);
      assert named'[..j] == named[..j];
    }
  }

  /** The clauses entered so far stay imported when one more is. */
  lemma ImportedPrefixGrows(h: Hierarchy, packge: PackageId, unique: (SymId, seq<SymId>) -> bool, cs: seq<Clause>, i: nat,
                            star: seq<SymId>, named: seq<SymId>, star': seq<SymId>, named': seq<SymId>)
    requires Closed(h) && i < |cs| && forall k :: 0 <= k < |cs| ==> ClauseFits(h, cs[k])
    requires star <= star' && named <= named'
    requires forall k :: 0 <= k < i ==> Imported(h, packge, unique, cs[k], star, named)
    requires Imported(h, packge, unique, cs[i], star', named')
    ensures forall k :: 0 <= k < i + 1 ==> Imported(h, packge, unique, cs[k], star', named')
  {
    forall k | 0 <= k < i ensures Imported(h, packge, unique, cs[k], star', named') {
      ImportedGrows(h, packge, unique, cs[k], star, named, star', named');
    }
  }

  lemma DefsLogSnoc(h: Hierarchy, packge: PackageId, ignoreNoLang: bool, cs: seq<Clause>, i: nat)
    requires Closed(h) && forall k :: 0 <= k < |cs| ==> ClauseFits(h, cs[k])
    requires i < |cs|
    ensures DefsLog(h, packge, ignoreNoLang, cs[..i + 1])
            == DefsLog(h, packge, ignoreNoLang, cs[..i]) + ClauseLog(h, packge, ignoreNoLang, cs[i])
  {
    assert cs[..i + 1][..i] == cs[..i];
  }

  class CompilationUnit {
    const h: Hierarchy
    const packge: PackageId
    /** The unit's trees, in order. */
    const defs: seq<Clause>
    /** The package java.lang as the class reader enters it. */
    const javaLang: Target
    const ignoreNoLang: bool
    /** Check.checkUniqueStaticImport and Check.checkUniqueImport. */
    const uniqueStatic: (SymId, seq<SymId>) -> bool
    const uniqueImport: (SymId, seq<SymId>) -> bool
    var starImportScope: seq<SymId>
    var namedImportScope: seq<SymId>
    var log: seq<LogEntry>

    predicate Valid()
      reads this`starImportScope
    {
      && Closed(h) && NoDup(starImportScope)
      && ClauseFits(h, OnDemand(javaLang))
      && forall i :: 0 <= i < |defs| ==> ClauseFits(h, defs[i])
    }

    /** A unit not yet processed: empty scopes, nothing logged. */
    constructor(hierarchy: Hierarchy, pkg: PackageId, trees: seq<Clause>, lang: Target, ignore: bool,
                checkStatic: (SymId, seq<SymId>) -> bool, checkImport: (SymId, seq<SymId>) -> bool)
      requires Closed(hierarchy) && ClauseFits(hierarchy, OnDemand(lang))
      requires forall i :: 0 <= i < |trees| ==> ClauseFits(hierarchy, trees[i])
      ensures Valid()
      ensures h == hierarchy && packge == pkg && defs == trees && javaLang == lang && ignoreNoLang == ignore
      ensures uniqueStatic == checkStatic && uniqueImport == checkImport
      ensures starImportScope == [] && namedImportScope == [] && log == []
    {
      h := hierarchy;
      packge := pkg;
      defs := trees;
      javaLang := lang;
      ignoreNoLang := ignore;
      uniqueStatic := checkStatic;
      uniqueImport := checkImport;
      starImportScope := [];
      namedImportScope := [];
      log := [];
    }

    /** visitImport: the clause is dispatched to the import it makes; only
        an on-demand import of a missing java.lang throws, and then the
        scopes and the log are as they were. */
    method VisitImport(c: Clause) returns (r: Result<(), ImportFailure>)
      requires Valid() && ClauseFits(h, c)
      modifies this`starImportScope, this`namedImportScope, this`log
      ensures Valid()
      ensures old(starImportScope) <= starImportScope && old(namedImportScope) <= namedImportScope && old(log) <= log
      ensures r.Failure? <==> c.OnDemand? && ImportAll(h, c.target, ignoreNoLang, old(starImportScope)).Failure?
      ensures r.Failure? ==> r.error == ImportAll(h, c.target, ignoreNoLang, old(starImportScope)).error
      ensures r.Failure? ==> starImportScope == old(starImportScope) && log == old(log)
      ensures r.Success? ==> Imported(h, packge, uniqueImport, c, starImportScope, namedImportScope)
      ensures r.Success? ==> log == old(log) + ClauseLog(h, packge, ignoreNoLang, c)
      ensures c.OnDemand? && r.Success? ==> starImportScope == StarImportAll(h, old(starImportScope), c.target.members)
      ensures c.NamedType? ==> namedImportScope == ImportNamed(c.kind, c.id, uniqueImport, old(namedImportScope))
      ensures !c.OnDemand? && !c.StaticOnDemand? ==> starImportScope == old(starImportScope)
      ensures c.OnDemand? || c.StaticOnDemand? || c.ClassDef? ==> namedImportScope == old(namedImportScope)
    {
      r := Success(());
      match c
      case OnDemand(t) =>
        r := ImportOnDemand(t);
      case StaticOnDemand(o) =>
        ImportStaticOnDemand(o);
      case NamedStatic(k, o, n) =>
        ImportStaticNamed(k, o, n);
      case NamedType(k, id) =>
        namedImportScope := ImportNamed(k, id, uniqueImport, namedImportScope);
        if (k == Typ || k == Err) && id !in namedImportScope {
          assert namedImportScope[..|namedImportScope|] == old(namedImportScope);
        }
      case ClassDef =>
    }

    /** `import p.*;`: importAll into the star import scope, logging what
        it reports. */
    method ImportOnDemand(t: Target) returns (r: Result<(), ImportFailure>)
      requires Valid() && ClauseFits(h, OnDemand(t))
      modifies this`starImportScope, this`log
      ensures Valid()
      ensures var a := ImportAll(h, t, ignoreNoLang, old(starImportScope));
        && (a.Failure? ==> r == Failure(a.error) && starImportScope == old(starImportScope) && log == old(log))
        && (a.Success? ==> r.Success? && starImportScope == a.value.0 && log == old(log) + Errors(a.value.1))
    {
      var a := ImportAll(h, t, ignoreNoLang, starImportScope);
      if a.Failure? {
        return Failure(a.error);
      }
      starImportScope := a.value.0;
      log := log + Errors(a.value.1);
      r := Success(());
    }

    /** `import static C.*;`: importStaticAll into the star import scope. */
    method ImportStaticOnDemand(o: TypeId)
      requires Valid() && o in h.members
      modifies this`starImportScope
      ensures Valid()
      ensures old(starImportScope) <= starImportScope
      ensures forall k :: |old(starImportScope)| <= k < |starImportScope| ==>
        starImportScope[k] in h.syms && Importable(h, o, packge, starImportScope[k])
      ensures Imported(h, packge, uniqueImport, StaticOnDemand(o), starImportScope, namedImportScope)
    {
      starImportScope := ImportStaticAll(h, o, packge, starImportScope);
    }

    /** `import static C.n;`: importNamedStatic into the named import
        scope, logging what it reports. */
    method ImportStaticNamed(k: Kind, o: TypeId, n: Text)
      requires Valid() && ClauseFits(h, NamedStatic(k, o, n))
      modifies this`namedImportScope, this`log
      ensures Valid()
      ensures old(namedImportScope) <= namedImportScope
      ensures k != Typ ==> namedImportScope == old(namedImportScope) && log == old(log) + [Error(StaticImpOnlyClasses)]
      ensures k == Typ ==> log == old(log) || log == old(log) + [Error(CantResolveLocation)]
      ensures k == Typ ==> (log == old(log) + [Error(CantResolveLocation)] <==>
        forall u :: u in h.members && Reachable(h, o, u) ==> !Declares(h, o, packge, n, u))
      ensures Imported(h, packge, uniqueImport, NamedStatic(k, o, n), starImportScope, namedImportScope)
    {
      var sc, errors := ImportNamedStatic(h, k, o, n, packge, namedImportScope, uniqueStatic);
      namedImportScope := sc;
      log := log + Errors(errors);
      assert errors == [] ==> log == old(log);
      assert errors != [] ==> log != old(log);
    }

    /** memberEnter of one tree: a completion failure is caught and
        reported; MissingPlatformError goes through. */
    method MemberEnter(c: Clause) returns (r: Result<(), ImportFailure>)
      requires Valid() && ClauseFits(h, c)
      modifies this`starImportScope, this`namedImportScope, this`log
      ensures Valid()
      ensures old(starImportScope) <= starImportScope && old(namedImportScope) <= namedImportScope && old(log) <= log
      ensures r.Failure? <==> FatalClause(c, ignoreNoLang)
      ensures r.Failure? ==> r.error == MissingPlatformError(NoJavaLang) && log == old(log)
      ensures r.Success? ==> Imported(h, packge, uniqueImport, c, starImportScope, namedImportScope)
      ensures r.Success? ==> log == old(log) + ClauseLog(h, packge, ignoreNoLang, c)
      ensures c.OnDemand? && Missing(c.target) && c.target.fullname == JavaLang && ignoreNoLang ==>
        r.Success? && starImportScope == old(starImportScope) && log == old(log) + [CompletionError(NoJavaLang)]
      ensures c.OnDemand? && r.Success? && !(Missing(c.target) && c.target.fullname == JavaLang) ==>
        starImportScope == StarImportAll(h, old(starImportScope), c.target.members)
      ensures c.NamedType? ==> namedImportScope == ImportNamed(c.kind, c.id, uniqueImport, old(namedImportScope))
      ensures (!c.OnDemand? && !c.StaticOnDemand?) || r.Failure? ==> starImportScope == old(starImportScope)
      ensures c.OnDemand? || c.StaticOnDemand? || c.ClassDef? ==> namedImportScope == old(namedImportScope)
    {
      r := VisitImport(c);
      if r.Failure? && r.error.CompletionFailure? {
        log := log + [CompletionError(r.error.detail)];
        r := Success(());
        assert c.OnDemand? && Missing(c.target);
      }
    }

    /** visitTopLevel: a unit whose star import scope holds something was
        processed already and is left alone.  Otherwise java.lang is
        imported on demand, then each tree is entered in order; a
        MissingPlatformError stops at the tree that throws it. */
    method VisitTopLevel() returns (r: Result<(), ImportFailure>)
      requires Valid()
      modifies this`starImportScope, this`namedImportScope, this`log
      ensures Valid()
      ensures |old(starImportScope)| > 0 ==>
        r.Success? && starImportScope == old(starImportScope) && namedImportScope == old(namedImportScope) && log == old(log)
      ensures old(starImportScope) <= starImportScope && old(namedImportScope) <= namedImportScope && old(log) <= log
      ensures r.Failure? ==> r.error.detail == NoJavaLang
      ensures r.Failure? && r.error.CompletionFailure? ==>
        Missing(javaLang) && javaLang.fullname == JavaLang && ignoreNoLang && starImportScope == old(starImportScope)
      ensures r.Success? && |old(starImportScope)| == 0 ==>
        Imported(h, packge, uniqueImport, OnDemand(javaLang), starImportScope, namedImportScope)
        && forall i :: 0 <= i < |defs| ==> Imported(h, packge, uniqueImport, defs[i], starImportScope, namedImportScope)
      ensures r.Success? && |old(starImportScope)| == 0 && HasType(h, javaLang) ==> |starImportScope| > 0
      ensures r.Success? && |old(starImportScope)| == 0 ==>
        log == old(log) + ClauseLog(h, packge, ignoreNoLang, OnDemand(javaLang)) + DefsLog(h, packge, ignoreNoLang, defs)
      ensures |old(starImportScope)| == 0 && Missing(javaLang) && javaLang.fullname == JavaLang ==>
        r == Failure(if ignoreNoLang then CompletionFailure(NoJavaLang) else MissingPlatformError(NoJavaLang))
        && starImportScope == old(starImportScope) && log == old(log)
      ensures r.Failure? ==>
        (Missing(javaLang) && javaLang.fullname == JavaLang && log == old(log))
        || exists i :: 0 <= i < |defs| && FatalClause(defs[i], ignoreNoLang)
             && log == old(log) + ClauseLog(h, packge, ignoreNoLang, OnDemand(javaLang)) + DefsLog(h, packge, ignoreNoLang, defs[..i])
    {
      if |starImportScope| > 0 {
        return Success(());
      }
      ghost var a := ImportAll(h, javaLang, ignoreNoLang, starImportScope);
      r := VisitImport(OnDemand(javaLang));
      if r.Failure? {
        assert r.error == a.error;
        return;
      }
      ghost var star, named, logged := starImportScope, namedImportScope, log;
      r := EnterDefs();
      PrefixTrans(old(starImportScope), star, starImportScope);
      PrefixTrans(old(namedImportScope), named, namedImportScope);
      LogTrans(old(log), logged, log);
      if HasType(h, javaLang) {
        var k :| 0 <= k < |javaLang.members| && h.syms[javaLang.members[k]].kind == Typ;
        assert javaLang.members[k] in star;
        assert |star| > 0;
      }
    }

    /** memberEnter of the unit's trees, in order, once java.lang is
        imported; the first MissingPlatformError ends it. */
    method EnterDefs() returns (r: Result<(), ImportFailure>)
      requires Valid() && Imported(h, packge, uniqueImport, OnDemand(javaLang), starImportScope, namedImportScope)
      modifies this`starImportScope, this`namedImportScope, this`log
      ensures Valid()
      ensures old(starImportScope) <= starImportScope && old(namedImportScope) <= namedImportScope && old(log) <= log
      ensures r.Failure? ==> r.error == MissingPlatformError(NoJavaLang)
      ensures r.Success? ==>
        Imported(h, packge, uniqueImport, OnDemand(javaLang), starImportScope, namedImportScope)
        && forall i :: 0 <= i < |defs| ==> Imported(h, packge, uniqueImport, defs[i], starImportScope, namedImportScope)
      ensures r.Success? ==> log == old(log) + DefsLog(h, packge, ignoreNoLang, defs)
      ensures r.Failure? ==>
        exists i :: 0 <= i < |defs| && FatalClause(defs[i], ignoreNoLang)
                    && log == old(log) + DefsLog(h, packge, ignoreNoLang, defs[..i])
    {
      var i := 0;
      while i < |defs|
        invariant Valid() && 0 <= i <= |defs|
        invariant log == old(log) + DefsLog(h, packge, ignoreNoLang, defs[..i])
        invariant old(starImportScope) <= starImportScope && old(namedImportScope) <= namedImportScope && old(log) <= log
        invariant Imported(h, packge, uniqueImport, OnDemand(javaLang), starImportScope, namedImportScope)
        invariant forall k :: 0 <= k < i ==> Imported(h, packge, uniqueImport, defs[k], starImportScope, namedImportScope)
      {
        ghost var star, named, logged := starImportScope, namedImportScope, log;
        r := MemberEnter(defs[i]);
        PrefixTrans(old(starImportScope), star, starImportScope);
        PrefixTrans(old(namedImportScope), named, namedImportScope);
        LogTrans(old(log), logged, log);
        if r.Failure? {
          assert FatalClause(defs[i], ignoreNoLang) && log == logged;
          return;
        }
        DefsLogSnoc(h, packge, ignoreNoLang, defs, i);
        assert log == logged + ClauseLog(h, packge, ignoreNoLang, defs[i]);
        ImportedGrows(h, packge, uniqueImport, OnDemand(javaLang), star, named, starImportScope, namedImportScope);
        ImportedPrefixGrows(h, packge, uniqueImport, defs, i, star, named, starImportScope, namedImportScope);
        assert log == old(log) + DefsLog(h, packge, ignoreNoLang, defs[..i + 1]);
        i := i + 1;
      }
      assert defs[..i] == defs;
      r := Success(());
    }

    /** memberEnter of the unit itself: a completion failure of java.lang
        is caught and reported, so only MissingPlatformError goes
        through. */
    method EnterTopLevel() returns (r: Result<(), ImportFailure>)
      requires Valid()
      modifies this`starImportScope, this`namedImportScope, this`log
      ensures Valid()
      ensures old(starImportScope) <= starImportScope && old(namedImportScope) <= namedImportScope && old(log) <= log
      ensures r.Failure? ==> r.error == MissingPlatformError(NoJavaLang)
      ensures |old(starImportScope)| > 0 ==>
        r.Success? && starImportScope == old(starImportScope) && namedImportScope == old(namedImportScope) && log == old(log)
      ensures |old(starImportScope)| == 0 && !(Missing(javaLang) && javaLang.fullname == JavaLang) ==>
        r.Success? ==> log == old(log) + ClauseLog(h, packge, ignoreNoLang, OnDemand(javaLang)) + DefsLog(h, packge, ignoreNoLang, defs)
      ensures |old(starImportScope)| == 0 && Missing(javaLang) && javaLang.fullname == JavaLang ==>
        (r.Success? <==> ignoreNoLang) && starImportScope == old(starImportScope)
        && log == old(log) + ClauseLog(h, packge, ignoreNoLang, OnDemand(javaLang))
    {
      r := VisitTopLevel();
      if r.Failure? && r.error.CompletionFailure? {
        log := log + [CompletionError(r.error.detail)];
        r := Success(());
      }
    }
  }
}

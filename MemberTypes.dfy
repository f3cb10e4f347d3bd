/** The types member entry builds and compares: method types and their
    generic (ForAll) forms, built by signature, and the comparison of a
    method's type read from a class file with the one from source that
    tolerates erroneous types.  Types.isSameType, Types.subst and
    Check.checkClassType are oracles. */
module MemberTypes {
  import opened Wrappers
  import opened JavaText

  /** The tags of the types that are neither arrays, method types nor
      generic method types. */
  datatype SimpleTag = ClassTag | TypeVarTag | IntTag | VoidTag | ErrorTag | OtherTag

  /** A type: a simple type with the name of its type symbol (if any) and
      whether it is erroneous, an array type, a method type, or a generic
      method type over its type variables. */
  datatype Ty =
    | Simple(tag: SimpleTag, tsym: Option<Text>, erroneous: bool)
    | ArrayTy(elem: Ty)
    | MethodTy(params: seq<Ty>, restype: Ty, thrown: seq<Ty>)
    | ForAllTy(tvars: seq<TVar>, qtype: Ty)

  /** A type variable with its upper bound. */
  datatype TVar = TVar(name: Text, bound: Ty)

  datatype Tag = TagOfSimple(simple: SimpleTag) | ArrayTag | MethodTag | ForAllTag

  const VoidType: Ty := Simple(VoidTag, Some("void"), false)
  const IntType: Ty := Simple(IntTag, Some("int"), false)
  const StringType: Ty := Simple(ClassTag, Some("String"), false)

  function TagOf(t: Ty): Tag {
    match t
    case Simple(tag, _, _) => TagOfSimple(tag)
    case ArrayTy(_) => ArrayTag
    case MethodTy(_, _, _) => MethodTag
    case ForAllTy(_, _) => ForAllTag
  }

  /** The name of the type's symbol (Array and Method for the synthetic
      classes of arrays and methods). */
  function TsymName(t: Ty): Option<Text> {
    match t
    case Simple(_, n, _) => n
    case ArrayTy(_) => Some("Array")
    case MethodTy(_, _, _) => Some("Method")
    case ForAllTy(_, q) => TsymName(q)
  }

  /** Type.isErroneous (Type.java is not part of this model): an error type,
      or a type built from one. */
  predicate Erroneous(t: Ty) {
    match t
    case Simple(tag, _, e) => e || tag == ErrorTag
    case ArrayTy(el) => Erroneous(el)
    case MethodTy(ps, r, _) => Erroneous(r) || exists i :: 0 <= i < |ps| && Erroneous(ps[i])
    case ForAllTy(_, q) => Erroneous(q)
  }

  /** isSameAPType: the same type, or `s` is erroneous and both types'
      symbols have the same name. */
  predicate IsSameAPType(same: (Ty, Ty) -> bool, t: Ty, s: Ty) {
    same(t, s) || (TsymName(t).Some? && TsymName(s).Some? && Erroneous(s) && TsymName(t) == TsymName(s))
  }

  /** The loop of isSameMethod over the parameter types: pairwise the same,
      and both lists end together. */
  function SameParams(same: (Ty, Ty) -> bool, tp: seq<Ty>, sp: seq<Ty>): bool
    decreases |tp|
  {
    if tp == [] || sp == [] then (tp == []) == (sp == [])
    else IsSameAPType(same, tp[0], sp[0]) && SameParams(same, tp[1..], sp[1..])
  }

  /** The loop of hasSameBounds: the bounds of `l1`, and those of `l2` with
      the type variables `stv` replaced by `ttv`, are pairwise the same,
      and both lists end together. */
  function SameBounds(same: (Ty, Ty) -> bool, subst: (Ty, seq<TVar>, seq<TVar>) -> Ty,
                      l1: seq<TVar>, l2: seq<TVar>, ttv: seq<TVar>, stv: seq<TVar>): bool
    decreases |l1|
  {
    if l1 != [] && l2 != [] && IsSameAPType(same, l1[0].bound, subst(l2[0].bound, stv, ttv)) then
      SameBounds(same, subst, l1[1..], l2[1..], ttv, stv)
    else
      l1 == [] && l2 == []
  }

  /** hasSameBounds of two generic method types. */
  predicate HasSameBounds(same: (Ty, Ty) -> bool, subst: (Ty, seq<TVar>, seq<TVar>) -> Ty, t: Ty, s: Ty)
    requires t.ForAllTy? && s.ForAllTy?
  {
    SameBounds(same, subst, t.tvars, s.tvars, t.tvars, s.tvars)
  }

  /** isSameMethod: two method types with equally many parameters, the same
      result type and pairwise the same parameter types, the thrown types
      not compared; two generic method types with the same bounds whose
      method types are the same once the second's type variables are
      renamed to the first's; nothing else. */
  function IsSameMethod(same: (Ty, Ty) -> bool, subst: (Ty, seq<TVar>, seq<TVar>) -> Ty, ot: Ty, os: Ty): (b: bool)
    ensures b ==> TagOf(ot) == TagOf(os) && (ot.MethodTy? || ot.ForAllTy?)
    decreases ot
  {
    if TagOf(ot) != TagOf(os) then false
    else
      match ot
      case MethodTy(tp, tr, _) =>
        |tp| == |os.params| && IsSameAPType(same, tr, os.restype) && SameParams(same, tp, os.params)
      case ForAllTy(tv, q) =>
        HasSameBounds(same, subst, ot, os) && IsSameMethod(same, subst, q, subst(os.qtype, os.tvars, tv))
      case _ => false
  }

  /** The parameter loop compares exactly position by position. */
  lemma {:induction false} SameParamsPairwise(same: (Ty, Ty) -> bool, tp: seq<Ty>, sp: seq<Ty>)
    ensures SameParams(same, tp, sp) <==>
      |tp| == |sp| && forall i :: 0 <= i < |tp| ==> IsSameAPType(same, tp[i], sp[i])
    decreases |tp|
  {
    if tp != [] && sp != [] {
      SameParamsPairwise(same, tp[1..], sp[1..]);
      if |tp| == |sp| && forall i :: 0 <= i < |tp[1..]| ==> IsSameAPType(same, tp[1..][i], sp[1..][i]) {
        assert forall i :: 1 <= i < |tp| ==> tp[i] == tp[1..][i - 1] && sp[i] == sp[1..][i - 1];
      }
    }
  }

  /** The bounds loop compares exactly position by position. */
  lemma {:induction false} SameBoundsPairwise(same: (Ty, Ty) -> bool, subst: (Ty, seq<TVar>, seq<TVar>) -> Ty,
                                              l1: seq<TVar>, l2: seq<TVar>, ttv: seq<TVar>, stv: seq<TVar>)
    ensures SameBounds(same, subst, l1, l2, ttv, stv) <==>
      |l1| == |l2| && forall i :: 0 <= i < |l1| ==> IsSameAPType(same, l1[i].bound, subst(l2[i].bound, stv, ttv))
    decreases |l1|
  {
    if l1 != [] && l2 != [] {
      SameBoundsPairwise(same, subst, l1[1..], l2[1..], ttv, stv);
      assert forall i :: 1 <= i < |l1| ==> l1[i] == l1[1..][i - 1];
      assert forall i :: 1 <= i < |l2| ==> l2[i] == l2[1..][i - 1];
    }
  }

  /** Two method types are the same exactly when they have as many
      parameters, pairwise the same, and the same result type; their
      thrown types play no part. */
  lemma MethodTypesSame(same: (Ty, Ty) -> bool, subst: (Ty, seq<TVar>, seq<TVar>) -> Ty,
                        tp: seq<Ty>, tr: Ty, tt: seq<Ty>, sp: seq<Ty>, sr: Ty, st: seq<Ty>)
    ensures IsSameMethod(same, subst, MethodTy(tp, tr, tt), MethodTy(sp, sr, st)) <==>
      |tp| == |sp| && IsSameAPType(same, tr, sr) && forall i :: 0 <= i < |tp| ==> IsSameAPType(same, tp[i], sp[i])
  {
    SameParamsPairwise(same, tp, sp);
  }

  /** A method type, or a generic method type over one. */
  predicate IsMethodType(t: Ty) {
    match t
    case MethodTy(_, _, _) => true
    case ForAllTy(_, q) => IsMethodType(q)
    case _ => false
  }

  /** With a reflexive type comparison and a substitution that leaves a type
      alone when it renames type variables to themselves, every method type
      is the same method as itself. */
  lemma {:induction false} IsSameMethodReflexive(same: (Ty, Ty) -> bool, subst: (Ty, seq<TVar>, seq<TVar>) -> Ty, t: Ty)
    requires forall x :: same(x, x)
    requires forall x, tv :: subst(x, tv, tv) == x
    requires IsMethodType(t)
    ensures IsSameMethod(same, subst, t, t)
    decreases t
  {
    match t
    case MethodTy(ps, r, th) =>
      MethodTypesSame(same, subst, ps, r, th, ps, r, th);
    case ForAllTy(tv, q) =>
      SameBoundsPairwise(same, subst, tv, tv, tv, tv);
      assert subst(q, tv, tv) == q;
      IsSameMethodReflexive(same, subst, q);
  }

  /** The thrown types of signature: a type variable as attributed, any
      other type as Check.checkClassType leaves it. */
  function ThrownTypes(thrown: seq<Ty>, checkClassType: Ty -> Ty): (r: seq<Ty>)
    ensures |r| == |thrown|
    ensures forall i :: 0 <= i < |thrown| ==>
      r[i] == if TagOf(thrown[i]) == TagOfSimple(TypeVarTag) then thrown[i] else checkClassType(thrown[i])
  {
    seq(|thrown|, i requires 0 <= i < |thrown| =>
      if TagOf(thrown[i]) == TagOfSimple(TypeVarTag) then thrown[i] else checkClassType(thrown[i]))
  }

  /** signature: the method type of the attributed parameter types, result
      type (void when there is none) and thrown types, generic exactly when
      there are type parameters. */
  function Signature(tvars: seq<TVar>, argtypes: seq<Ty>, res: Option<Ty>, thrown: seq<Ty>,
                     checkClassType: Ty -> Ty): (r: Ty)
    ensures IsMethodType(r)
    ensures r.ForAllTy? <==> tvars != []
    ensures r.ForAllTy? ==> r.tvars == tvars
    ensures var m := if r.ForAllTy? then r.qtype else r;
      m.MethodTy? && m.params == argtypes && m.thrown == ThrownTypes(thrown, checkClassType)
      && m.restype == (if res.None? then VoidType else res.value)
  {
    var mtype := MethodTy(argtypes, if res.None? then VoidType else res.value, ThrownTypes(thrown, checkClassType));
    if tvars == [] then mtype else ForAllTy(tvars, mtype)
  }

  /** Two signatures built from the same declaration are the same method,
      whatever the oracles did, as long as comparison is reflexive and
      renaming type variables to themselves changes nothing. */
  lemma SignatureSameMethod(same: (Ty, Ty) -> bool, subst: (Ty, seq<TVar>, seq<TVar>) -> Ty,
                            tvars: seq<TVar>, argtypes: seq<Ty>, res: Option<Ty>, thrown: seq<Ty>,
                            checkClassType: Ty -> Ty, otherCheck: Ty -> Ty)
    requires forall x :: same(x, x)
    requires forall x, tv :: subst(x, tv, tv) == x
    ensures IsSameMethod(same, subst, Signature(tvars, argtypes, res, thrown, checkClassType),
                                      Signature(tvars, argtypes, res, thrown, otherCheck))
  {
    var r := if res.None? then VoidType else res.value;
    MethodTypesSame(same, subst, argtypes, r, ThrownTypes(thrown, checkClassType), argtypes, r, ThrownTypes(thrown, otherCheck));
    if tvars != [] {
      var s1 := Signature(tvars, argtypes, res, thrown, checkClassType);
      var s2 := Signature(tvars, argtypes, res, thrown, otherCheck);
      SameBoundsPairwise(same, subst, tvars, tvars, tvars, tvars);
      assert subst(s2.qtype, tvars, tvars) == s2.qtype;
    }
  }
}

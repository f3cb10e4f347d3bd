/** The symbols member entry works with: flags as sets, symbol kinds, and
    the class hierarchy as an oracle graph (Types.supertype and
    Types.interfaces), with each type's member scope in scope order and
    Symbol.isMemberOf of the imported type given as a relation. */
module MemberSymbols {
  import opened Wrappers
  import opened JavaText

  type SymId = nat
  type TypeId = nat
  type PackageId = nat

  /** The flags of Flags that member entry reads or sets. */
  datatype Flag =
    | Public | Private | Protected | Static | Final | Abstract | Interface | Enum | Annotation
    | Deprecated | GeneratedConstr | AnonConstr | Varargs | FromClass | Unattributed | Parameter | AptCleaned

  /** Flags.AccessFlags. */
  const AccessFlags: set<Flag> := {Public, Private, Protected}

  /** The symbol kinds of Kinds: type, method, variable, package, erroneous. */
  datatype Kind = Typ | Mth | Var | Pck | Err

  /** A symbol: its simple name, its kind, its flags and its package. */
  datatype Sym = Sym(name: Text, kind: Kind, flags: set<Flag>, packge: PackageId)

  /** The class hierarchy: the type symbol of each type's supertype (absent
      when it is null or has none), its interfaces, the entries of its
      member scope, the symbols, and which symbols are members of which
      type. */
  datatype Hierarchy = Hierarchy(
    supertype: map<TypeId, TypeId>,
    interfaces: map<TypeId, seq<TypeId>>,
    members: map<TypeId, seq<SymId>>,
    syms: map<SymId, Sym>,
    memberOf: set<(SymId, TypeId)>)

  /** Every type the hierarchy mentions has a member scope, and every
      member has a symbol. */
  predicate Closed(h: Hierarchy) {
    && h.supertype.Keys <= h.members.Keys
    && (forall t :: t in h.supertype ==> h.supertype[t] in h.members)
    && h.interfaces.Keys <= h.members.Keys
    && (forall t, i :: t in h.interfaces && 0 <= i < |h.interfaces[t]| ==> h.interfaces[t][i] in h.members)
    && (forall t, i :: t in h.members && 0 <= i < |h.members[t]| ==> h.members[t][i] in h.syms)
  }

  function Interfaces(h: Hierarchy, t: TypeId): seq<TypeId> {
    if t in h.interfaces then h.interfaces[t] else []
  }

  /** `u` is the supertype or one of the interfaces of `t`. */
  predicate Succ(h: Hierarchy, t: TypeId, u: TypeId) {
    (t in h.supertype && h.supertype[t] == u) || u in Interfaces(h, t)
  }

  /** A walk of the hierarchy along supertypes and interfaces. */
  predicate IsPath(h: Hierarchy, p: seq<TypeId>) {
    forall i :: 0 <= i < |p| - 1 ==> Succ(h, p[i], p[i + 1])
  }

  /** A set of types that holds the supertype and the interfaces of each
      of its types. */
  predicate SuccClosed(h: Hierarchy, s: set<TypeId>) {
    forall t :: t in s ==> SuccIn(h, t, s)
  }

  /** The supertype and the interfaces of `t` are in `s`. */
  predicate SuccIn(h: Hierarchy, t: TypeId, s: set<TypeId>) {
    (t in h.supertype ==> h.supertype[t] in s)
    && forall i :: 0 <= i < |Interfaces(h, t)| ==> Interfaces(h, t)[i] in s
  }

  /** A set closed under supertypes and interfaces that holds the start of
      a walk holds the whole walk: it holds every type reachable from the
      start. */
  lemma {:induction false} ClosedHoldsPath(h: Hierarchy, s: set<TypeId>, p: seq<TypeId>)
    requires SuccClosed(h, s) && IsPath(h, p) && |p| > 0 && p[0] in s
    ensures forall i :: 0 <= i < |p| ==> p[i] in s
  {
    if |p| > 1 {
      var q := p[..|p| - 1];
      assert IsPath(h, q) by {
        forall i | 0 <= i < |q| - 1 ensures Succ(h, q[i], q[i + 1]) {
          assert q[i] == p[i] && q[i + 1] == p[i + 1];
        }
      }
      ClosedHoldsPath(h, s, q);
      assert p[|p| - 2] == q[|q| - 1];
      assert Succ(h, p[|p| - 2], p[|p| - 1]);
    }
  }

  /** No element occurs twice. */
  predicate NoDup(s: seq<nat>) {
    forall i, j :: 0 <= i < j < |s| ==> s[i] != s[j]
  }

  /** staticImportAccessible: a symbol is accessible everywhere in the
      package unless it is private; a package-private or protected symbol
      only inside its own package.  Any other mix of access flags counts as
      public. */
  function StaticImportAccessible(sym: Sym, packge: PackageId): (b: bool)
    ensures sym.flags * AccessFlags == {Private} ==> !b
    ensures sym.flags * AccessFlags == {} || sym.flags * AccessFlags == {Protected} ==> (b <==> sym.packge == packge)
    ensures Public in sym.flags ==> b
    ensures |sym.flags * AccessFlags| >= 2 ==> b
  {
    var access := sym.flags * AccessFlags;
    assert Public in sym.flags ==> Public in access;
    if access == {Private} then false
    else if access == {} || access == {Protected} then sym.packge == packge
    else true
  }
}

/** The trees and names member entry synthesizes: a class's default
    constructor and the super call in it, the implicit members of an enum,
    and the type parameters given to a class synthesized for a missing
    type. */
module MemberSynthesis {
  import opened Wrappers
  import opened JavaText
  import opened MemberSymbols
  import opened MemberTypes

  const Init: Text := "<init>"
  const Super: Text := "super"

  datatype Expr =
    | Ident(name: Text)
    | Select(selected: Expr, name: Text)
    | Apply(typeargs: Option<seq<Ty>>, meth: Expr, args: seq<Expr>)

  /** An expression statement. */
  datatype Stat = Exec(expr: Expr)

  datatype VarDef = VarDef(flags: set<Flag>, name: Text, vartype: Ty)

  /** A method definition; a missing body is None. */
  datatype MethodDef = MethodDef(flags: set<Flag>, name: Text, restype: Option<Ty>, typarams: seq<Ty>,
                                 params: seq<VarDef>, thrown: seq<Ty>, body: Option<seq<Stat>>)

  /** What the default constructor needs of its class: its flags and name,
      whether its type is erroneous or is Object, whether its supertype is
      java.lang.Enum, and whether it is compiled in bootstrap mode. */
  datatype ClassInfo = ClassInfo(flags: set<Flag>, name: Text, erroneous: bool, isObject: bool,
                                 superIsEnum: bool, bootstrap: bool)

  /** TreeMaker.Params for a method without parameter symbols (TreeMaker.java
      is not part of this model): parameters x0, x1, ... of the given
      types. */
  function Params(argtypes: seq<Ty>): (r: seq<VarDef>)
    ensures |r| == |argtypes|
    ensures forall i :: 0 <= i < |r| ==> r[i] == VarDef({Parameter}, "x" + Decimal(i), argtypes[i])
  {
    seq(|argtypes|, i requires 0 <= i < |argtypes| => VarDef({Parameter}, "x" + Decimal(i), argtypes[i]))
  }

  /** The parameters get distinct names. */
  lemma ParamsDistinct(argtypes: seq<Ty>, i: nat, j: nat)
    requires i < j < |argtypes|
    ensures Params(argtypes)[i].name != Params(argtypes)[j].name
  {
    var p := Params(argtypes);
    if p[i].name == p[j].name {
      assert Decimal(i) == p[i].name[1..] == p[j].name[1..] == Decimal(j);
      DecimalInjective(i, j);
    }
  }

  function Idents(params: seq<VarDef>): (r: seq<Expr>)
    ensures |r| == |params| && forall i :: 0 <= i < |params| ==> r[i] == Ident(params[i].name)
  {
    seq(|params|, i requires 0 <= i < |params| => Ident(params[i].name))
  }

  /** SuperCall: `super(x0, ..., xn)`, or `x0.super(x1, ..., xn)` when the
      first parameter is the outer instance; type arguments only when there
      are type parameters. */
  function SuperCall(typarams: seq<Ty>, params: seq<VarDef>, based: bool): (r: Stat)
    requires based ==> |params| > 0
    ensures r.expr.Apply?
    ensures r.expr.typeargs == if typarams == [] then None else Some(typarams)
  {
    var meth := if based then Select(Ident(params[0].name), Super) else Ident(Super);
    var args := if based then params[1..] else params;
    Exec(Apply(if typarams != [] then Some(typarams) else None, meth, Idents(args)))
  }

  /** The names a call passes on: its receiver's, if it is selected from
      one, then its arguments'. */
  function Passed(e: Expr): seq<Expr>
    requires e.Apply?
  {
    (if e.meth.Select? then [e.meth.selected] else []) + e.args
  }

  /** The super call passes on every parameter once, in order, and calls
      `super`. */
  lemma SuperCallForwards(typarams: seq<Ty>, params: seq<VarDef>, based: bool)
    requires based ==> |params| > 0
    ensures SuperCall(typarams, params, based).expr.meth.name == Super
    ensures Passed(SuperCall(typarams, params, based).expr) == Idents(params)
    ensures SuperCall(typarams, params, based).expr.meth.Select? <==> based
  {
    if based {
      assert Idents(params) == [Ident(params[0].name)] + Idents(params[1..]);
    }
  }

  /** A true enum: its supertype is java.lang.Enum, or it is compiled in
      bootstrap mode. */
  predicate TrueEnum(c: ClassInfo) {
    Enum in c.flags && (c.superIsEnum || c.bootstrap)
  }

  /** The flags of a default constructor: a true enum's is private whatever
      access was asked for; any other class's keeps the access asked for and
      adds the class's own.  It is generated, and anonymous for an anonymous
      class; no other flag changes. */
  function ConstructorFlags(c: ClassInfo, flags: set<Flag>): (r: set<Flag>)
    ensures TrueEnum(c) ==> r * AccessFlags == {Private}
    ensures !TrueEnum(c) ==> r * AccessFlags == (flags + c.flags) * AccessFlags
    ensures GeneratedConstr in r
    ensures AnonConstr in r <==> AnonConstr in flags || c.name == []
    ensures r - AccessFlags - {GeneratedConstr, AnonConstr} == flags - AccessFlags - {GeneratedConstr, AnonConstr}
  {
    var f := if TrueEnum(c) then (flags - AccessFlags) + {Private, GeneratedConstr}
             else flags + (c.flags * AccessFlags) + {GeneratedConstr};
    if c.name == [] then f + {AnonConstr} else f
  }

  /** DefaultConstructor: `<init>` without result type, over parameters
      x0, ..., xn of the given types, whose body calls the superclass
      constructor unless the class is erroneous or Object. */
  function DefaultConstructor(c: ClassInfo, typarams: seq<Ty>, argtypes: seq<Ty>, thrown: seq<Ty>,
                              flags: set<Flag>, based: bool): (r: MethodDef)
    requires based ==> |argtypes| > 0
    ensures r.name == Init && r.restype.None? && r.typarams == typarams && r.thrown == thrown
    ensures r.params == Params(argtypes) && r.flags == ConstructorFlags(c, flags)
    ensures r.body.Some? && |r.body.value| <= 1
    ensures r.body.value == [] <==> c.erroneous || c.isObject
    ensures r.body.value != [] ==> r.body.value[0] == SuperCall(typarams, Params(argtypes), based)
  {
    var params := Params(argtypes);
    var stats := if !c.erroneous && !c.isObject then [SuperCall(typarams, params, based)] else [];
    MethodDef(ConstructorFlags(c, flags), Init, None, typarams, params, thrown, Some(stats))
  }

  /** The superclass constructor an anonymous class's instance creation
      resolved to, as seen from the class: erroneous or not, its parameter
      and type argument and thrown types, whether it has variable arity;
      and the type of the explicit outer instance, if any. */
  datatype SuperConstructor = SuperConstructor(erroneous: bool, params: seq<Ty>, typeargs: seq<Ty>,
                                               varargs: bool, thrown: seq<Ty>)
  datatype AnonymousSite = AnonymousSite(ctor: Option<SuperConstructor>, encl: Option<Ty>)

  /** The default constructor complete adds: one exactly for a class that
      is not an interface and declares none, except an anonymous class whose
      superclass constructor is erroneous.  An anonymous class's takes the
      superclass constructor's parameters (after the outer instance, which
      the super call is then selected from) and its variable arity;
      any other class's has no parameters. */
  function ImplicitConstructor(c: ClassInfo, hasConstructors: bool, site: AnonymousSite): (r: Option<MethodDef>)
    ensures r.Some? <==> Interface !in c.flags && !hasConstructors && !(c.name == [] && site.ctor.Some? && site.ctor.value.erroneous)
    ensures r.Some? ==> r.value.name == Init && GeneratedConstr in r.value.flags
    ensures r.Some? && (c.name != [] || site.ctor.None?) ==>
      r.value.params == [] && r.value.typarams == [] && r.value.thrown == [] && r.value.flags == ConstructorFlags(c, {})
    ensures r.Some? && c.name == [] && site.ctor.Some? ==>
      var k := site.ctor.value;
      var argtypes := (if site.encl.Some? then [site.encl.value] else []) + k.params;
      && r.value.params == Params(argtypes) && r.value.typarams == k.typeargs && r.value.thrown == k.thrown
      && (Varargs in r.value.flags <==> k.varargs)
      && r.value.body.Some? && (r.value.body.value != [] ==> r.value.body.value[0] == SuperCall(k.typeargs, Params(argtypes), site.encl.Some?))
  {
    if Interface in c.flags || hasConstructors then None
    else if c.name == [] && site.ctor.Some? then
      var k := site.ctor.value;
      if k.erroneous then None
      else
        var argtypes := (if site.encl.Some? then [site.encl.value] else []) + k.params;
        Some(DefaultConstructor(c, k.typeargs, argtypes, k.thrown, if k.varargs then {Varargs} else {}, site.encl.Some?))
    else
      Some(DefaultConstructor(c, [], [], [], {}, false))
  }

  /** A method definition without body, type parameters or thrown
      types. */
  function Implicit(flags: set<Flag>, name: Text, restype: Ty, params: seq<VarDef>): MethodDef {
    MethodDef(flags, name, Some(restype), [], params, [], None)
  }

  /** addEnumMembers: `public static T[] values()` and `public static T
      valueOf(String name)`, then in bootstrap mode `public final int
      ordinal()`, `public final String name()` and `public int
      compareTo(T)`. */
  function EnumMembers(self: Ty, bootstrap: bool): (r: seq<MethodDef>)
    ensures |r| == if bootstrap then 5 else 2
    ensures r[0] == Implicit({Public, Static}, "values", ArrayTy(self), [])
    ensures r[1] == Implicit({Public, Static}, "valueOf", self, [VarDef({Parameter}, "name", StringType)])
    ensures bootstrap ==>
      && r[2] == Implicit({Public, Final}, "ordinal", IntType, [])
      && r[3] == Implicit({Public, Final}, "name", StringType, [])
      && r[4] == Implicit({Public}, "compareTo", IntType, Params([self]))
  {
    var always := [Implicit({Public, Static}, "values", ArrayTy(self), []),
                   Implicit({Public, Static}, "valueOf", self, [VarDef({Parameter}, "name", StringType)])];
    if !bootstrap then always
    else always + [Implicit({Public, Final}, "ordinal", IntType, []),
                   Implicit({Public, Final}, "name", StringType, []),
                   Implicit({Public}, "compareTo", IntType, Params([self]))]
  }

  /** The implicit members are public, have distinct names, and exactly
      values and valueOf are static. */
  lemma EnumMembersShape(self: Ty, bootstrap: bool)
    ensures forall i :: 0 <= i < |EnumMembers(self, bootstrap)| ==> Public in EnumMembers(self, bootstrap)[i].flags
    ensures forall i :: 0 <= i < |EnumMembers(self, bootstrap)| ==> (Static in EnumMembers(self, bootstrap)[i].flags <==> i < 2)
    ensures forall i, j :: 0 <= i < j < |EnumMembers(self, bootstrap)| ==>
      EnumMembers(self, bootstrap)[i].name != EnumMembers(self, bootstrap)[j].name
  {
    var r := EnumMembers(self, bootstrap);
    assert "values"[1] != "valueOf"[1] || "values"[5] != "valueOf"[5];
    if bootstrap {
      assert r[2].name[0] == 'o' && r[3].name[0] == 'n' && r[4].name[0] == 'c';
    }
  }

  /** finishClass: an enum whose supertype is not an enum gets its implicit
      members, unless its symbol was read from a class file. */
  function FinishClassMembers(treeFlags: set<Flag>, superFlags: set<Flag>, symFlags: Option<set<Flag>>,
                              self: Ty, bootstrap: bool): (r: seq<MethodDef>)
    ensures r != [] <==> Enum in treeFlags && Enum !in superFlags && (symFlags.None? || FromClass !in symFlags.value)
    ensures r != [] ==> r == EnumMembers(self, bootstrap)
  {
    if Enum in treeFlags && Enum !in superFlags && (symFlags.None? || FromClass !in symFlags.value) then
      EnumMembers(self, bootstrap)
    else
      []
  }

  /** The names synthesizeTyparams gives: T for one type parameter, T1 to Tn
      otherwise. */
  function TyparamNames(n: nat): seq<Text> {
    if n == 1 then ["T"] else seq(n, k requires 0 <= k < n => "T" + Decimal(k + 1))
  }

  /** synthesizeTyparams: one type variable named T, or type variables
      prepended from Tn down to T1, so that they read T1 to Tn. */
  method SynthesizeTyparams(n: nat) returns (names: seq<Text>)
    ensures names == TyparamNames(n)
  {
    names := [];
    if n == 1 {
      names := ["T"];
    } else {
      var i := n;
      while i > 0
        invariant 0 <= i <= n
        invariant names == seq(n - i, k requires 0 <= k < n - i => "T" + Decimal(i + k + 1))
      {
        names := ["T" + Decimal(i)] + names;
        i := i - 1;
      }
    }
  }

  /** There are n names, all of them distinct identifiers. */
  lemma TyparamNamesDistinct(n: nat)
    ensures |TyparamNames(n)| == n
    ensures forall i :: 0 <= i < n ==> IsIdentifier(TyparamNames(n)[i])
    ensures forall i, j :: 0 <= i < j < n ==> TyparamNames(n)[i] != TyparamNames(n)[j]
  {
    if n != 1 {
      var names := TyparamNames(n);
      assert forall i :: 0 <= i < n ==> names[i] == "T" + Decimal(i + 1);
      forall i | 0 <= i < n ensures IsIdentifier(names[i]) {
        NumberedIdentifier(i + 1);
      }
      forall i, j | 0 <= i < j < n ensures names[i] != names[j] {
        NumberedDistinct(i + 1, j + 1);
      }
    }
  }

  /** "T" followed by a number is an identifier. */
  lemma NumberedIdentifier(k: nat)
    ensures IsIdentifier("T" + Decimal(k))
  {
    var d := Decimal(k);
    var t := "T" + d;
    assert forall m :: 1 <= m < |t| ==> t[m] == d[m - 1];
  }

  /** "T" followed by different numbers gives different names. */
  lemma NumberedDistinct(a: nat, b: nat)
    requires a != b
    ensures "T" + Decimal(a) != "T" + Decimal(b)
  {
    var s, t := "T" + Decimal(a), "T" + Decimal(b);
    if s == t {
      assert Decimal(a) == s[1..] == t[1..] == Decimal(b);
      DecimalInjective(a, b);
    }
  }
}

/** The trees the error-repair phase (Repair) rewrites, as values: the
    statements, expressions and class members it looks at, with the facts
    about each node it consults (the error diagnostic the log holds for the
    node, whether the node's type is erroneous, whether a symbol or an
    operator was resolved).  The functions here are the pure part of the
    phase: the synthetic `throw new RuntimeException(..)` it builds, the cut
    of a statement list after its first throw, and which expression trees
    raise the error flag. */
module RepairTrees {
  import opened Wrappers
  import opened JavaText

  type ClassId = nat

  /** Position.NOPOS. */
  const NOPOS: int := -1

  /** Repair.ERR_MESSAGE. */
  const ErrMessage: Text := "Uncompilable source code"

  /** The separator between ErrMessage and the diagnostic's message. */
  const ErrSeparator: Text := " - "

  /** The code of the diagnostic for a duplicate definition. */
  const AlreadyDefined: Text := "compiler.err.already.defined"

  const RuntimeException: Text := "java.lang.RuntimeException"
  const JavaLangEnum: Text := "java.lang.Enum"
  const JavaLangString: Text := "java.lang.String"
  const ClassInitName: Text := "<clinit>"
  const ConstructorName: Text := "<init>"

  /** An error diagnostic: its code, its (localized) message and the position
      of the tree it is reported on, if any. */
  datatype Diag = Diag(code: Text, message: Text, tree: Option<int>)

  /** What the phase reads off every node: its position, the error the log
      holds for it (Log.getErrDiag) and whether its type is erroneous. */
  datatype Info = Info(pos: int, diag: Option<Diag>, erroneousType: bool)

  /** The state of a type reference: resolved, erroneous, or null. */
  datatype TypeState = TypeOk | TypeErroneous | TypeMissing

  /** The name a method invocation calls: `this`, `super` or another name. */
  datatype Callee = ThisCall | SuperCall | NamedCall(name: Text)

  /** The symbol of an invoked method: its owner's qualified name and the
      state of its type. */
  datatype CallSym = CallSym(owner: Text, typeState: TypeState)

  datatype OpKind = Unary | Binary | Assignop

  /** A method symbol with the flags and the default value the phase edits. */
  datatype MethodSym = MethodSym(
    id: nat, name: Text, isAbstract: bool, isNative: bool,
    hasDefaultValue: bool, argTypes: seq<Text>)

  /** A block; `id` stands for the node's identity. */
  datatype BlockNode = BlockNode(id: int, info: Info, isStatic: bool, stats: seq<Tree>)

  datatype Tree =
    // statements
    | Block(block: BlockNode)
    | Case(info: Info, pat: Option<Tree>, stats: seq<Tree>)
    | Throw(info: Info, expr: Tree)
    | Exec(info: Info, expr: Tree)
    | VarDef(info: Info, header: seq<Tree>, init: Option<Tree>)
    | ClassDef(info: Info, classSym: ClassId)
    | OtherStat(info: Info, children: seq<Tree>)
    // declarations that are not statements
    | MethodDef(info: Info, name: Text, methodSym: Option<MethodSym>, header: seq<Tree>, params: seq<Tree>,
                thrown: seq<Tree>, defaultValue: Option<Tree>, body: Option<BlockNode>)
    | Import(info: Info, qualid: Tree)
    // expressions
    | Apply(info: Info, callee: Callee, callSym: Option<CallSym>, meth: Tree, args: seq<Tree>)
    // `encl` and `def` hold the enclosing instance and the anonymous class
    // body when there is one, and are empty otherwise
    | NewClass(info: Info, encl: seq<Tree>, clazz: Tree, hasCtor: bool, ctorType: TypeState, args: seq<Tree>,
               def: seq<Tree>)
    | Operation(info: Info, kind: OpKind, hasOperator: bool, operands: seq<Tree>)
    | Erroneous(info: Info, errs: seq<Tree>)
    | TypeParameter(info: Info, boundErroneous: bool)
    | Literal(info: Info, value: Text)
    | Ident(info: Info, name: Text)
    | OtherExpr(info: Info, children: seq<Tree>)

  /** JCTree.getTag, as far as the phase distinguishes tags. */
  datatype Tag = BlockTag | CaseTag | ThrowTag | ClassDefTag | VarDefTag | MethodDefTag | OtherTag

  function TagOf(t: Tree): Tag {
    if t.Block? then BlockTag
    else if t.Case? then CaseTag
    else if t.Throw? then ThrowTag
    else if t.ClassDef? then ClassDefTag
    else if t.VarDef? then VarDefTag
    else if t.MethodDef? then MethodDefTag
    else OtherTag
  }

  function InfoOf(t: Tree): Info {
    if t.Block? then t.block.info else t.info
  }

  /** `tree instanceof JCStatement`. */
  predicate IsStatement(t: Tree) {
    t.Block? || t.Case? || t.Throw? || t.Exec? || t.VarDef? || t.ClassDef? || t.OtherStat?
  }

  /** The head of the parent stack, or null. */
  function Parent(parents: seq<Tag>): Option<Tag> {
    if |parents| == 0 then None else Some(parents[0])
  }

  /** A position given by an optional tree: NOPOS for none. */
  function PosOf(p: Option<int>): int {
    if p.Some? then p.value else NOPOS
  }

  // ----- sizes, for termination of the traversal -----

  function Size(t: Tree): (n: nat)
    ensures n >= 1
  {
    match t
    case Block(b) => 1 + SizeList(b.stats)
    case Case(_, pat, stats) => 1 + (if pat.Some? then Size(pat.value) else 0) + SizeList(stats)
    case Throw(_, e) => 1 + Size(e)
    case Exec(_, e) => 1 + Size(e)
    case VarDef(_, header, init) => 1 + SizeList(header) + (if init.Some? then Size(init.value) else 0)
    case ClassDef(_, _) => 1
    case OtherStat(_, cs) => 1 + SizeList(cs)
    case MethodDef(_, _, _, header, params, thrown, dv, body) =>
      1 + SizeList(header) + SizeList(params) + SizeList(thrown) + (if dv.Some? then Size(dv.value) else 0)
      + (if body.Some? then 1 + SizeList(body.value.stats) else 0)
    case Import(_, q) => 1 + Size(q)
    case Apply(_, _, _, meth, args) => 1 + Size(meth) + SizeList(args)
    case NewClass(_, encl, clazz, _, _, args, def) => 1 + SizeList(encl) + Size(clazz) + SizeList(args) + SizeList(def)
    case Operation(_, _, _, ops) => 1 + SizeList(ops)
    case Erroneous(_, _) => 1
    case TypeParameter(_, _) => 1
    case Literal(_, _) => 1
    case Ident(_, _) => 1
    case OtherExpr(_, cs) => 1 + SizeList(cs)
  }

  function SizeBlock(b: BlockNode): (n: nat)
    ensures n >= 1
  {
    1 + SizeList(b.stats)
  }

  function SizeOpt(o: Option<Tree>): nat {
    if o.Some? then Size(o.value) else 0
  }

  function SizeList(ts: seq<Tree>): nat {
    if |ts| == 0 then 0 else SizeList(ts[..|ts| - 1]) + Size(ts[|ts| - 1])
  }

  lemma {:induction false} SizeListAppend(a: seq<Tree>, b: seq<Tree>)
    ensures SizeList(a + b) == SizeList(a) + SizeList(b)
    decreases |b|
  {
    if |b| == 0 {
      assert a + b == a;
    } else {
      var n := |b| - 1;
      SizeListAppend(a, b[..n]);
      assert (a + b)[..|a + b| - 1] == a + b[..n];
      assert (a + b)[|a + b| - 1] == b[n];
    }
  }

  // ----- the children of expressions -----

  /** An invocation, an instance creation, an operator expression or another
      expression: the nodes whose children TreeTranslator visits as one
      list. */
  predicate HasChildren(t: Tree) {
    t.Apply? || t.NewClass? || t.Operation? || t.OtherExpr?
  }

  /** The children in the order TreeTranslator visits them: the method
      expression, then the arguments, of an invocation; the enclosing
      instance, the class, the arguments and the anonymous class body of an
      instance creation; the operands of the others. */
  function Children(t: Tree): seq<Tree>
    requires HasChildren(t)
  {
    match t
    case Apply(_, _, _, meth, args) => [meth] + args
    case NewClass(_, encl, clazz, _, _, args, def) => encl + [clazz] + args + def
    case Operation(_, _, _, ops) => ops
    case OtherExpr(_, cs) => cs
  }

  /** The children are smaller than the node. */
  lemma ChildrenSize(t: Tree)
    requires HasChildren(t)
    ensures SizeList(Children(t)) < Size(t)
  {
    if t.Apply? {
      SizeListAppend([t.meth], t.args);
    } else if t.NewClass? {
      NewClassChildrenSize(t);
    }
  }

  lemma NewClassChildrenSize(t: Tree)
    requires t.NewClass?
    ensures SizeList(Children(t)) < Size(t)
  {
    var NewClass(_, encl, clazz, _, _, args, def) := t;
    SizeListAppend(encl, [clazz]);
    SizeListAppend(encl + [clazz], args);
    SizeListAppend(encl + [clazz] + args, def);
  }

  /** The node with its children replaced, in the order of Children. */
  function WithChildren(t: Tree, cs: seq<Tree>): (r: Tree)
    requires HasChildren(t) && |cs| == |Children(t)|
    ensures HasChildren(r) && Children(r) == cs
    ensures TagOf(r) == TagOf(t) && InfoOf(r) == InfoOf(t) && OwnError(r) == OwnError(t)
  {
    if t.NewClass? then NewClassWith(t, cs)
    else if t.Apply? then
      assert cs == [cs[0]] + cs[1..];
      t.(meth := cs[0], args := cs[1..])
    else if t.Operation? then t.(operands := cs)
    else OtherExpr(t.info, cs)
  }

  /** An instance creation with its children replaced. */
  function NewClassWith(t: Tree, cs: seq<Tree>): (r: Tree)
    requires t.NewClass? && |cs| == |Children(t)|
    ensures r.NewClass? && Children(r) == cs
    ensures r.info == t.info && r.hasCtor == t.hasCtor && r.ctorType == t.ctorType
  {
    var e, n := |t.encl|, |t.args|;
    var pre, mid, post := cs[..e], cs[e + 1..e + 1 + n], cs[e + 1 + n..];
    assert cs == pre + [cs[e]] + mid + post;
    t.(encl := pre, clazz := cs[e], args := mid, def := post)
  }

  /** Putting a node's own children back gives the node. */
  lemma ChildrenRoundTrip(t: Tree)
    requires HasChildren(t)
    ensures WithChildren(t, Children(t)) == t
  {
    if t.NewClass? {
      var cs := Children(t);
      var e, n := |t.encl|, |t.args|;
      assert cs[..e] == t.encl && cs[e] == t.clazz && cs[e + 1..e + 1 + n] == t.args;
      assert cs[e + 1 + n..] == t.def;
    } else if t.Apply? {
      assert Children(t)[1..] == t.args;
    }
  }

  lemma {:induction false} SizeListElement(ts: seq<Tree>, i: nat)
    requires i < |ts|
    ensures Size(ts[i]) <= SizeList(ts)
  {
    if i < |ts| - 1 {
      SizeListElement(ts[..|ts| - 1], i);
    }
  }

  // ----- the cut after the first throw (visitBlock, visitCase) -----

  /** No statement of the list follows a throw. */
  predicate ThrowOnlyLast(ts: seq<Tree>) {
    forall i :: 0 <= i < |ts| - 1 ==> !ts[i].Throw?
  }

  /** The list up to and including its first throw; the whole list when it
      has none. */
  function CutAfterFirstThrow(ts: seq<Tree>): (r: seq<Tree>)
    ensures r <= ts
    ensures ThrowOnlyLast(r)
    ensures r == ts || (|r| > 0 && r[|r| - 1].Throw?)
  {
    if |ts| == 0 then []
    else if ts[0].Throw? then [ts[0]]
    else
      var rest := CutAfterFirstThrow(ts[1..]);
      assert forall i :: 1 <= i < |rest| + 1 ==> ([ts[0]] + rest)[i] == rest[i - 1];
      [ts[0]] + rest
  }

  /** A list without a throw before its end is left whole, and cutting twice
      is cutting once. */
  lemma CutKeepsThrowOnlyLast(ts: seq<Tree>)
    requires ThrowOnlyLast(ts)
    ensures CutAfterFirstThrow(ts) == ts
  {
    var r := CutAfterFirstThrow(ts);
    if |r| > 0 {
      assert ts[|r| - 1] == r[|r| - 1];
    }
  }

  lemma CutIdempotent(ts: seq<Tree>)
    ensures CutAfterFirstThrow(CutAfterFirstThrow(ts)) == CutAfterFirstThrow(ts)
  {
    CutKeepsThrowOnlyLast(CutAfterFirstThrow(ts));
  }

  /** The cut, stated by the index of the first throw. */
  lemma CutAt(ts: seq<Tree>, k: nat)
    requires k < |ts| && ts[k].Throw?
    requires forall i :: 0 <= i < k ==> !ts[i].Throw?
    ensures CutAfterFirstThrow(ts) == ts[..k + 1]
  {
    var r := CutAfterFirstThrow(ts);
    if |r| > k {
      assert r[k] == ts[k];
    }
    if |r| > 0 {
      assert r[|r| - 1] == ts[|r| - 1];
    }
  }

  // ----- the synthetic throw (generateErrStat) -----

  /** The message literal: ErrMessage, followed by " - " and the diagnostic's
      message when there is one. */
  function ErrText(msg: Option<Text>): (r: Text)
    ensures ErrMessage <= r
  {
    if msg.Some? then ErrMessage + ErrSeparator + msg.value else ErrMessage
  }

  /** The diagnostic's message read back from a literal built by ErrText. */
  function MessageOf(lit: Text): Option<Text> {
    if |lit| >= |ErrMessage + ErrSeparator| && lit[..|ErrMessage + ErrSeparator|] == ErrMessage + ErrSeparator
    then Some(lit[|ErrMessage + ErrSeparator|..])
    else None
  }

  lemma MessageRoundTrip(msg: Option<Text>)
    ensures MessageOf(ErrText(msg)) == msg
  {
    var sep := ErrMessage + ErrSeparator;
    if msg.Some? {
      assert ErrText(msg) == sep + msg.value;
      assert ErrText(msg)[..|sep|] == sep;
      assert ErrText(msg)[|sep|..] == msg.value;
    } else {
      assert |ErrText(msg)| < |sep|;
    }
  }

  /** Which RuntimeException constructor resolves in the environment: the one
      taking a String, only the no-argument one, or neither. */
  datatype CtorAvailability = StringCtor | NoArgCtor | NoCtor

  /** The identity given to the blocks the phase builds; the blocks of the
      source have identities of at least zero. */
  const GeneratedBlock: int := -1

  /** A node built by the tree maker at a position: no diagnostic, a
      resolved type. */
  function Made(pos: int): Info {
    Info(pos, None, false)
  }

  /** `throw new RuntimeException(lit)` (or `throw new RuntimeException()`
      when only the no-argument constructor resolves).  The constructor
      symbol is set but the constructor type is left null. */
  function ErrStat(avail: CtorAvailability, pos: int, msg: Option<Text>): (r: Tree)
    requires avail != NoCtor
    ensures r.Throw? && r.expr.NewClass? && r.expr.encl == [] && r.expr.def == []
    ensures r.expr.clazz == Ident(Made(pos), RuntimeException)
    ensures avail == StringCtor ==> |r.expr.args| == 1 && r.expr.args[0].Literal?
    ensures avail == NoArgCtor ==> r.expr.args == []
  {
    var args := if avail == StringCtor then [Literal(Made(pos), ErrText(msg))] else [];
    Throw(Made(pos), NewClass(Made(pos), [], Ident(Made(pos), RuntimeException), true, TypeMissing, args, []))
  }

  /** The message an error statement carries, when it carries one. */
  function ThrownMessage(t: Tree): Option<Text> {
    if t.Throw? && t.expr.NewClass? && |t.expr.args| == 1 && t.expr.args[0].Literal?
    then MessageOf(t.expr.args[0].value)
    else None
  }

  /** The diagnostic's message survives into the generated throw. */
  lemma ErrStatCarriesMessage(pos: int, msg: Option<Text>)
    ensures ThrownMessage(ErrStat(StringCtor, pos, msg)) == msg
  {
    MessageRoundTrip(msg);
  }

  /** The message of an error statement reads back, for either constructor. */
  lemma ErrStatReadsBack(avail: CtorAvailability, pos: int, msg: Option<Text>)
    requires avail != NoCtor
    ensures ErrStat(avail, pos, msg) == ErrStat(avail, pos, ThrownMessage(ErrStat(avail, pos, msg)))
  {
    if avail == StringCtor {
      ErrStatCarriesMessage(pos, msg);
    }
  }

  /** generateErrExpr: an erroneous expression wrapping the error statement. */
  function ErrExpr(avail: CtorAvailability, pos: int, msg: Option<Text>): (r: Tree)
    requires avail != NoCtor
    ensures r.Erroneous? && r.errs == [ErrStat(avail, pos, msg)] && r.info.erroneousType
  {
    Erroneous(Info(pos, None, true), [ErrStat(avail, pos, msg)])
  }

  /** generateErrStaticInit: a static block holding the error statement. */
  function ErrStaticInit(avail: CtorAvailability, pos: int, msg: Option<Text>): (r: BlockNode)
    requires avail != NoCtor
    ensures r.isStatic && r.stats == [ErrStat(avail, pos, msg)]
  {
    BlockNode(GeneratedBlock, Made(pos), true, [ErrStat(avail, pos, msg)])
  }

  /** generateErrMethod: the method's definition with a body holding the
      error statement (no message, no position).  The header make.MethodDef
      derives from the symbol (modifiers, type parameters, parameters,
      thrown types) is left empty: nothing visits the synthesized
      definition after it is prepended to the class. */
  function ErrMethod(avail: CtorAvailability, sym: MethodSym): (r: Tree)
    requires avail != NoCtor
    ensures r.MethodDef? && r.methodSym == Some(sym) && r.body.Some?
    ensures r.body.value.stats == [ErrStat(avail, NOPOS, None)]
  {
    MethodDef(Made(NOPOS), sym.name, Some(sym), [], [], [], None, Some(BlockNode(GeneratedBlock, Made(NOPOS), false, [ErrStat(avail, NOPOS, None)])))
  }

  // ----- expression trees and the error flag -----

  /** An expression tree (or an import) holding no statement and no
      declaration below it; the statements of an erroneous node are not
      visited. */
  predicate Flat(t: Tree)
    decreases Size(t), 0
  {
    if HasChildren(t) then ChildrenSize(t); FlatList(Children(t))
    else
      match t
      case Import(_, q) => Flat(q)
      case Erroneous(_, _) => true
      case TypeParameter(_, _) => true
      case Literal(_, _) => true
      case Ident(_, _) => true
      case _ => false
  }

  predicate FlatList(ts: seq<Tree>)
    decreases SizeList(ts), 1
  {
    |ts| == 0 || (FlatList(ts[..|ts| - 1]) && Flat(ts[|ts| - 1]))
  }

  /** The node itself reports an error when visited: an erroneous node, an
      invocation whose method symbol is null or whose type is null or
      erroneous, an instance creation whose constructor symbol is null or
      whose constructor type is null or erroneous, an operator expression
      without an operator symbol, or a type parameter with an erroneous
      bound. */
  predicate OwnError(t: Tree) {
    match t
    case Erroneous(_, _) => true
    case Apply(_, _, sym, _, _) => sym.None? || sym.value.typeState != TypeOk
    case NewClass(_, _, _, hasCtor, ctorType, _, _) => !hasCtor || ctorType != TypeOk
    case Operation(_, _, hasOperator, _) => !hasOperator
    case TypeParameter(_, boundErroneous) => boundErroneous
    case _ => false
  }

  /** Translating the flat tree `t` under a parent with tag `parent` raises
      the error flag: some node of it has an error diagnostic or reports an
      error itself, or has an erroneous type while its parent is not a class
      definition. */
  predicate ExprError(t: Tree, parent: Option<Tag>)
    requires Flat(t)
    decreases Size(t), 1
  {
    InfoOf(t).diag.Some? || OwnError(t)
    || (InfoOf(t).erroneousType && parent != Some(ClassDefTag))
    || ChildError(t)
  }

  /** Some child of the flat tree `t` raises the flag, `t` being its parent. */
  predicate ChildError(t: Tree)
    requires Flat(t)
    decreases Size(t), 0
  {
    if HasChildren(t) then ChildrenSize(t); AnyExprError(Children(t), Some(TagOf(t)))
    else t.Import? && ExprError(t.qualid, Some(TagOf(t)))
  }

  /** Some element of the flat list raises the flag. */
  predicate AnyExprError(ts: seq<Tree>, parent: Option<Tag>)
    requires FlatList(ts)
    decreases SizeList(ts), 2
  {
    |ts| > 0 && (AnyExprError(ts[..|ts| - 1], parent) || ExprError(ts[|ts| - 1], parent))
  }

  /** visitTypeParameter's repair: every erroneous type-parameter bound of
      the flat tree replaced by java.lang.Object. */
  function ClearBounds(t: Tree): (r: Tree)
    requires Flat(t)
    decreases Size(t), 0
    ensures Flat(r) && TagOf(r) == TagOf(t) && InfoOf(r) == InfoOf(t)
  {
    if HasChildren(t) then ChildrenSize(t); WithChildren(t, ClearBoundsList(Children(t)))
    else
      match t
      case Import(info, q) => Import(info, ClearBounds(q))
      case TypeParameter(info, _) => TypeParameter(info, false)
      case _ => t
  }

  function ClearBoundsList(ts: seq<Tree>): (r: seq<Tree>)
    requires FlatList(ts)
    decreases SizeList(ts), 1
    ensures |r| == |ts| && FlatList(r)
  {
    if |ts| == 0 then []
    else
      var n := |ts| - 1;
      var r := ClearBoundsList(ts[..n]) + [ClearBounds(ts[n])];
      assert r[..n] == ClearBoundsList(ts[..n]);
      r
  }

  /** A second repair of a generated error statement flags an error again:
      the generated instance creation has no constructor type. */
  lemma GeneratedThrowIsFlagged(avail: CtorAvailability, pos: int, msg: Option<Text>, parent: Option<Tag>)
    requires avail != NoCtor
    ensures Flat(ErrStat(avail, pos, msg).expr)
    ensures ExprError(ErrStat(avail, pos, msg).expr, parent)
  {
    var e := ErrStat(avail, pos, msg).expr;
    var cs := Children(e);
    assert cs == [e.clazz] + e.args;
    assert Flat(cs[0]);
    assert FlatList(cs[..1]) by { assert cs[..1][..0] == []; }
    if |cs| == 2 {
      assert Flat(cs[1]);
      assert cs[..1] == cs[..|cs| - 1];
    }
  }

  // ----- trees without errors -----

  /** A tree the phase has nothing to repair in: no node has an error
      diagnostic, an erroneous type or an error of its own, no block or case
      has a statement after a throw, and it holds no class definition (classes are repaired on their own). */
  predicate Clean(t: Tree)
    decreases Size(t), 0
  {
    InfoOf(t).diag.None? && !InfoOf(t).erroneousType && !OwnError(t) &&
    match t
    case Block(b) => ThrowOnlyLast(b.stats) && CleanList(b.stats)
    case Case(_, pat, stats) => (pat.Some? ==> Clean(pat.value)) && ThrowOnlyLast(stats) && CleanList(stats)
    case Throw(_, e) => Clean(e)
    case Exec(_, e) => Clean(e)
    case VarDef(_, header, init) => CleanList(header) && (init.Some? ==> Clean(init.value))
    case ClassDef(_, _) => false
    case OtherStat(_, cs) => CleanList(cs)
    case MethodDef(_, _, _, header, params, thrown, dv, body) =>
      CleanList(header) && CleanList(params) && CleanList(thrown) && (dv.Some? ==> Clean(dv.value))
      && (body.Some? ==>
            body.value.info.diag.None? && !body.value.info.erroneousType && ThrowOnlyLast(body.value.stats)
            && CleanList(body.value.stats))
    case Import(_, q) => Clean(q)
    case Apply(_, _, _, _, _) | NewClass(_, _, _, _, _, _, _) | Operation(_, _, _, _) | OtherExpr(_, _) =>
      ChildrenSize(t); CleanList(Children(t))
    case Erroneous(_, _) => false
    case TypeParameter(_, _) => true
    case Literal(_, _) => true
    case Ident(_, _) => true
  }

  predicate CleanList(ts: seq<Tree>)
    decreases SizeList(ts), 1
  {
    |ts| == 0 || (CleanList(ts[..|ts| - 1]) && Clean(ts[|ts| - 1]))
  }

  /** A clean flat tree raises no error under any parent, and its bounds
      need no repair. */
  lemma {:induction false} CleanFlatUnchanged(t: Tree, parent: Option<Tag>)
    requires Flat(t) && Clean(t)
    decreases Size(t), 0
    ensures !ExprError(t, parent) && ClearBounds(t) == t
  {
    if HasChildren(t) {
      ChildrenSize(t);
      CleanFlatListUnchanged(Children(t), Some(TagOf(t)));
      ChildrenRoundTrip(t);
    } else if t.Import? {
      CleanFlatUnchanged(t.qualid, Some(TagOf(t)));
    }
  }

  lemma {:induction false} CleanFlatListUnchanged(ts: seq<Tree>, parent: Option<Tag>)
    requires FlatList(ts) && CleanList(ts)
    decreases SizeList(ts), 1
    ensures !AnyExprError(ts, parent) && ClearBoundsList(ts) == ts
  {
    if |ts| > 0 {
      var n := |ts| - 1;
      CleanFlatListUnchanged(ts[..n], parent);
      CleanFlatUnchanged(ts[n], parent);
      assert ts[..n] + [ts[n]] == ts;
    }
  }

  // ----- classes -----

  /** What the phase reads off a class symbol: whether its type is
      erroneous, whether it is an enum, the methods of its member scope, and
      the classes that scope holds. */
  datatype ClassInfo = ClassInfo(erroneous: bool, isEnum: bool, methods: seq<MethodSym>, memberClasses: set<ClassId>)

  /** A class declaration: its modifiers, type parameters, superclass and
      interfaces (`header`) and its member definitions. */
  datatype ClassDecl = ClassDecl(info: Info, header: seq<Tree>, defs: seq<Tree>)

  /** The part of a class's environment the phase uses: its compilation unit
      and that unit's imports. */
  datatype ClassEnv = ClassEnv(toplevel: nat, imports: seq<Tree>)

  /** Some member definition of the list defines the method. */
  predicate DefinesMethod(defs: seq<Tree>, m: MethodSym) {
    exists i :: 0 <= i < |defs| && defs[i].MethodDef? && defs[i].methodSym.Some? && defs[i].methodSym.value.id == m.id
  }

  /** The implicit `values()` and `valueOf(String)` of an enum. */
  predicate IsEnumValuesOrValueOf(m: MethodSym) {
    (m.name == "values" && m.argTypes == []) || (m.name == "valueOf" && m.argTypes == [JavaLangString])
  }

  /** A member method of the class gets a synthesized throwing definition:
      it is not abstract, not the class initializer, has no definition in
      the class's tree, and is not an enum's `values()` or `valueOf(String)`. */
  predicate NeedsErrMethod(ci: ClassInfo, defs: seq<Tree>, m: MethodSym) {
    !m.isAbstract && m.name != ClassInitName && !DefinesMethod(defs, m)
    && !(ci.isEnum && IsEnumValuesOrValueOf(m))
  }

  /** The member methods that get a synthesized definition, in scope order. */
  function MissingMethods(ci: ClassInfo, defs: seq<Tree>, ms: seq<MethodSym>): (r: seq<MethodSym>)
    ensures forall m :: m in r <==> m in ms && NeedsErrMethod(ci, defs, m)
  {
    if |ms| == 0 then []
    else
      var rest := MissingMethods(ci, defs, ms[1..]);
      assert forall m :: m in ms <==> m == ms[0] || m in ms[1..];
      if NeedsErrMethod(ci, defs, ms[0]) then [ms[0]] + rest else rest
  }

  /** The definitions with one synthesized method prepended per symbol, in
      order, so that the last symbol's method comes first. */
  function PrependErrMethods(avail: CtorAvailability, ms: seq<MethodSym>, defs: seq<Tree>): seq<Tree>
    requires avail != NoCtor
  {
    if |ms| == 0 then defs
    else [ErrMethod(avail, ms[|ms| - 1])] + PrependErrMethods(avail, ms[..|ms| - 1], defs)
  }

  /** Each symbol gets a definition, and the original definitions follow. */
  lemma {:induction false} PrependErrMethodsDefines(avail: CtorAvailability, ms: seq<MethodSym>, defs: seq<Tree>)
    requires avail != NoCtor
    ensures |PrependErrMethods(avail, ms, defs)| == |ms| + |defs|
    ensures PrependErrMethods(avail, ms, defs)[|ms|..] == defs
    ensures forall m :: m in ms ==> DefinesMethod(PrependErrMethods(avail, ms, defs), m)
  {
    if |ms| > 0 {
      var init := ms[..|ms| - 1];
      var last := ms[|ms| - 1];
      PrependErrMethodsDefines(avail, init, defs);
      var p := PrependErrMethods(avail, init, defs);
      var q := PrependErrMethods(avail, ms, defs);
      assert q == [ErrMethod(avail, last)] + p;
      assert q[0].methodSym == Some(last);
      forall m | m in ms
        ensures DefinesMethod(q, m)
      {
        if m != last {
          assert m in init;
          var i :| 0 <= i < |p| && p[i].MethodDef? && p[i].methodSym.Some? && p[i].methodSym.value.id == m.id;
          assert q[i + 1] == p[i];
        }
      }
    }
  }

  /** The static initializer met first, its statements replaced by one. */
  function ReplaceStaticInit(defs: seq<Tree>, id: int, stat: Tree): seq<Tree> {
    seq(|defs|, i requires 0 <= i < |defs| =>
      if defs[i].Block? && defs[i].block.id == id then Block(defs[i].block.(stats := [stat])) else defs[i])
  }

  /** The invocation a constructor body starts with (TreeInfo.firstConstructorCall,
      without the skipping of synthetic initializations). */
  function FirstConstructorCall(name: Text, stats: seq<Tree>): Option<Tree> {
    if name == ConstructorName && |stats| > 0 && stats[0].Exec? && stats[0].expr.Apply?
    then Some(stats[0].expr) else None
  }

  /** The body of a method of an erroneous class: only a leading `this(..)`
      or `super(..)` call survives, and not even that when it calls a
      constructor of java.lang.Enum or its symbol is missing. */
  function ErrClassStats(name: Text, stats: seq<Tree>): (r: seq<Tree>)
    ensures r <= stats && |r| <= 1
    ensures |r| == 1 <==>
      (name == ConstructorName && |stats| > 0 && stats[0].Exec? && stats[0].expr.Apply?
       && (stats[0].expr.callee.ThisCall? || stats[0].expr.callee.SuperCall?)
       && stats[0].expr.callSym.Some? && stats[0].expr.callSym.value.owner != JavaLangEnum)
  {
    var app := FirstConstructorCall(name, stats);
    if app.Some? && (app.value.callee.ThisCall? || app.value.callee.SuperCall?)
       && app.value.callSym.Some? && app.value.callSym.value.owner != JavaLangEnum
    then stats[..1]
    else []
  }
}

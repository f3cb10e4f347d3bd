/** The error-repair phase (Repair) as a translation of values: every
    visitor of the phase is a function from the traversal state and a tree
    to the new state and the translated tree.  The state holds what the
    phase keeps in fields: the class trees it rewrites, the memo of
    repaired classes, the error flag and the current diagnostic, whether
    the class being repaired is erroneous, the class-level error, the first
    static initializer, the parent stack, the current environment and tree
    maker, and whether MissingPlatformError has been thrown.  The lists are
    translated front to back, as the phase's loops do.  The class Repairer
    (module Repair) performs the same steps on its fields and is proved to
    end in the state these functions compute. */
module RepairTraversal {
  import opened Wrappers
  import opened JavaText
  import opened RepairTrees

  /** MissingPlatformError: no RuntimeException constructor resolves. */
  datatype Fatal = MissingPlatformError(key: Text)

  const CantLocateCtor: Text := "fatal.err.cant.locate.ctor"

  /** What the phase consults and never changes: which RuntimeException
      constructor Resolve finds, Enter.typeEnvs (the classes whose trees are
      at hand), the class symbols, Types.supertype for the classes whose
      supertype is a class, and a rank that decreases along it. */
  datatype Setting = Setting(
    ctorAvail: CtorAvailability,
    envs: map<ClassId, ClassEnv>,
    classInfo: map<ClassId, ClassInfo>,
    superclass: map<ClassId, ClassId>,
    rank: map<ClassId, nat>)

  /** Every class with an environment has a symbol, and the class hierarchy
      is acyclic. */
  predicate WellFormed(g: Setting) {
    g.envs.Keys <= g.classInfo.Keys
    && forall c :: c in g.superclass ==> c in g.rank && g.superclass[c] in g.rank && g.rank[g.superclass[c]] < g.rank[c]
  }

  function RankOf(g: Setting, c: ClassId): nat {
    if c in g.rank then g.rank[c] else 0
  }

  /** The class trees the phase rewrites and the memo of repaired classes. */
  datatype Memo = Memo(trees: map<ClassId, ClassDecl>, repaired: set<ClassId>)

  /** The fields of the phase. */
  datatype State = State(
    memo: Memo,
    hasError: bool,
    err: Option<Diag>,
    isErrClass: bool,
    classLevelErrTree: Option<int>,
    classLevelErrMessage: Option<Text>,
    staticInit: Option<int>,
    parents: seq<Tag>,
    attrEnv: Option<ClassId>,
    make: Option<nat>,
    fatal: bool)

  /** The class trees are those of the environments; MissingPlatformError
      is only ever thrown when no constructor resolves. */
  predicate Fits(g: Setting, s: State) {
    s.memo.trees.Keys == g.envs.Keys && (s.fatal ==> g.ctorAvail == NoCtor)
  }

  /** The number of classes not yet repaired. */
  function Left(g: Setting, m: Memo): nat {
    |g.envs.Keys - m.repaired|
  }

  /** The memo only grows. */
  predicate Grows(g: Setting, m: Memo, m': Memo) {
    m'.trees.Keys == m.trees.Keys && m.repaired <= m'.repaired && Left(g, m') <= Left(g, m)
  }

  /** What every step of a class's repair keeps: the parent stack, the
      memo, the current environment and tree maker, and MissingPlatformError
      once thrown. */
  predicate Keeps(g: Setting, s: State, s': State) {
    Fits(g, s') && Grows(g, s.memo, s'.memo)
    && s'.parents == s.parents && s'.attrEnv == s.attrEnv && s'.make == s.make
    && (s.fatal ==> s'.fatal)
  }

  /** What every visitor keeps besides: whether the class being repaired
      is erroneous (only a class's own repair changes it, and restores it),
      and the first static initializer once found. */
  predicate Mono(g: Setting, s: State, s': State) {
    Keeps(g, s, s') && s'.isErrClass == s.isErrClass
    && (s.staticInit.Some? ==> s'.staticInit == s.staticInit)
  }

  /** The message of the current diagnostic, if any. */
  function ErrMsg(err: Option<Diag>): Option<Text> {
    if err.Some? then Some(err.value.message) else None
  }

  /** A statement the phase may replace: a statement other than a case, and
      a class or variable definition only directly inside a block or case. */
  predicate Replaceable(t: Tree, parent: Option<Tag>) {
    IsStatement(t) && !t.Case?
    && ((t.ClassDef? || t.VarDef?) ==> parent == Some(BlockTag) || parent == Some(CaseTag))
  }

  /** The result is the same kind of node, at the same position, with the
      same diagnostic. */
  predicate Shaped(t: Tree, r: Tree) {
    (r.Block? <==> t.Block?) && (r.Case? <==> t.Case?) && (r.Throw? <==> t.Throw?) && (r.Exec? <==> t.Exec?)
    && (r.OtherStat? <==> t.OtherStat?) && (r.ClassDef? <==> t.ClassDef?) && (r.VarDef? <==> t.VarDef?) && (r.MethodDef? <==> t.MethodDef?)
    && InfoOf(r) == InfoOf(t)
  }

  // ----- translate -----

  /** translate: the node is visited with itself on the parent stack.
      Unless an error was flagged already, the node's diagnostic becomes the
      current one (raising the flag when there is one), an erroneous type
      raises the flag outside a class definition, and the visited node goes
      through Replace. */
  function Tr(g: Setting, s: State, t: Tree): (r: (State, Tree))
    requires WellFormed(g) && Fits(g, s)
    decreases Left(g, s.memo), 1, Size(t), 4
    ensures Mono(g, s, r.0)
    ensures !s.fatal && t.Block? ==>
      r.1.Block? && r.1.block.id == t.block.id && r.1.block.isStatic == t.block.isStatic && ThrowOnlyLast(r.1.block.stats)
    ensures !s.fatal && t.Case? ==> r.1.Case? && ThrowOnlyLast(r.1.stats)
  {
    if s.fatal then (s, t)
    else
      var inner := s.(parents := [TagOf(t)] + s.parents);
      if s.hasError then
        var v := Vis(g, inner, t);
        (v.0.(parents := s.parents), v.1)
      else
        var d := InfoOf(t).diag;
        var v := Vis(g, inner.(err := d, hasError := d.Some?), t);
        var s1 := v.0.(parents := s.parents);
        var s2 := if InfoOf(v.1).erroneousType && Parent(s.parents) != Some(ClassDefTag) then s1.(hasError := true) else s1;
        Replace(g, s2, v.1)
  }

  /** The end of translate: a flagged statement is replaced by the throw
      carrying the current diagnostic's message (a block keeps its node and
      gets the throw as its only statement), and the flag and the diagnostic
      are cleared; cases are never replaced, and class and variable
      definitions only directly inside a block or case. */
  function Replace(g: Setting, s: State, t: Tree): (r: (State, Tree))
    requires Fits(g, s)
    ensures Fits(g, r.0)
    ensures r.0 == s.(hasError := r.0.hasError, err := r.0.err, fatal := r.0.fatal)
    ensures !(s.hasError && Replaceable(t, Parent(s.parents))) ==> r == (s, t)
    ensures s.hasError && Replaceable(t, Parent(s.parents)) ==>
      !r.0.hasError && r.0.err.None? && (r.0.fatal <==> g.ctorAvail == NoCtor)
    ensures s.hasError && Replaceable(t, Parent(s.parents)) && g.ctorAvail != NoCtor ==>
      r.1 == (if t.Block? then Block(t.block.(stats := [ErrStat(g.ctorAvail, InfoOf(t).pos, ErrMsg(s.err))]))
              else ErrStat(g.ctorAvail, InfoOf(t).pos, ErrMsg(s.err)))
  {
    if !(s.hasError && IsStatement(t)) || t.Case? then (s, t)
    else if (t.ClassDef? || t.VarDef?) && Parent(s.parents) != Some(BlockTag) && Parent(s.parents) != Some(CaseTag) then (s, t)
    else
      var msg := ErrMsg(s.err);
      var s1 := s.(hasError := false, err := None);
      if g.ctorAvail == NoCtor then (s1.(fatal := true), t)
      else
        var stat := ErrStat(g.ctorAvail, InfoOf(t).pos, msg);
        if t.Block? then (s1, Block(t.block.(stats := [stat]))) else (s1, stat)
  }

  /** TreeTranslator's visit of the node, with the phase's visitors: the
      children are translated in order; an invocation without a method
      symbol or with a null or erroneous method type, an instance creation
      without a constructor or with a null or erroneous constructor type, an
      operator expression without an operator, and an erroneous node raise
      the flag; an erroneous type-parameter bound is replaced by Object and
      raises the flag; an import that leaves an error behind makes it the
      class-level error; a class definition repairs its class. */
  function Vis(g: Setting, s: State, t: Tree): (r: (State, Tree))
    requires WellFormed(g) && Fits(g, s)
    decreases Left(g, s.memo), 1, Size(t), 3
    ensures Mono(g, s, r.0)
    ensures Shaped(t, r.1)
    ensures t.Block? ==>
      r.1.Block? && r.1.block.id == t.block.id && r.1.block.isStatic == t.block.isStatic && ThrowOnlyLast(r.1.block.stats)
    ensures t.Case? ==> r.1.Case? && ThrowOnlyLast(r.1.stats)
  {
    if t.VarDef? || t.ClassDef? || t.MethodDef? then VisDeclaration(g, s, t)
    else if IsStatement(t) then VisStatement(g, s, t)
    else VisExpression(g, s, t)
  }

  /** The visitors of declarations: variables, member and local classes,
      and methods. */
  function VisDeclaration(g: Setting, s: State, t: Tree): (r: (State, Tree))
    requires WellFormed(g) && Fits(g, s) && (t.VarDef? || t.ClassDef? || t.MethodDef?)
    decreases Left(g, s.memo), 1, Size(t), 2
    ensures Mono(g, s, r.0)
    ensures Shaped(t, r.1)
  {
    match t
    case VarDef(_, _, _) =>
      VisVarDef(g, s, t)
    case ClassDef(_, c) =>
      (TrClass(g, s, c), t)
    case MethodDef(_, _, _, _, _, _, _, _) =>
      VisMethodDef(g, s, t)
  }

  /** The visitors of the other statements. */
  function VisStatement(g: Setting, s: State, t: Tree): (r: (State, Tree))
    requires WellFormed(g) && Fits(g, s) && IsStatement(t) && !t.VarDef? && !t.ClassDef?
    decreases Left(g, s.memo), 1, Size(t), 2
    ensures Mono(g, s, r.0)
    ensures Shaped(t, r.1)
    ensures t.Block? ==>
      r.1.Block? && r.1.block.id == t.block.id && r.1.block.isStatic == t.block.isStatic && ThrowOnlyLast(r.1.block.stats)
    ensures t.Case? ==> r.1.Case? && ThrowOnlyLast(r.1.stats)
  {
    match t
    case Block(b) =>
      var v := VisBlock(g, s, b);
      (v.0, Block(v.1))
    case Case(info, pat, stats) =>
      VisCase(g, s, t)
    case Throw(info, e) =>
      var v := Tr(g, s, e);
      (v.0, Throw(info, v.1))
    case Exec(info, e) =>
      var v := Tr(g, s, e);
      (v.0, Exec(info, v.1))
    case OtherStat(info, cs) =>
      var v := TrList(g, s, cs);
      (v.0, OtherStat(info, v.1))
  }

  /** A case of a switch: its pattern, then its statements, cut after the
      first throw. */
  function VisCase(g: Setting, s: State, t: Tree): (r: (State, Tree))
    requires WellFormed(g) && Fits(g, s) && t.Case?
    decreases Left(g, s.memo), 1, Size(t), 0
    ensures Mono(g, s, r.0)
    ensures r.1.Case? && r.1.info == t.info && ThrowOnlyLast(r.1.stats)
  {
    var p := TrOpt(g, s, t.pat);
    var v := TrStats(g, p.0, t.stats);
    (v.0, Case(t.info, p.1, v.1))
  }

  /** The visitors of expressions and imports. */
  function VisExpression(g: Setting, s: State, t: Tree): (r: (State, Tree))
    requires WellFormed(g) && Fits(g, s) && !IsStatement(t) && !t.MethodDef?
    decreases Left(g, s.memo), 1, Size(t), 2
    ensures Mono(g, s, r.0)
    ensures Shaped(t, r.1)
  {
    if HasChildren(t) then
      ChildrenSize(t);
      var v := TrList(g, if OwnError(t) then s.(hasError := true) else s, Children(t));
      (v.0, WithChildren(t, v.1))
    else match t
    case Import(info, q) =>
      var v := Tr(g, s, q);
      var s1 := if v.0.hasError && v.0.err.Some?
        then v.0.(classLevelErrTree := v.0.err.value.tree, classLevelErrMessage := Some(v.0.err.value.message))
        else v.0;
      (s1, Import(info, v.1))
    case Erroneous(_, _) =>
      (s.(hasError := true), t)
    case TypeParameter(info, boundErroneous) =>
      if boundErroneous then (s.(hasError := true), TypeParameter(info, false)) else (s, t)
    case Literal(_, _) =>
      (s, t)
    case Ident(_, _) =>
      (s, t)
  }

  // ----- lists -----

  /** TreeTranslator.translate(List): the elements in order. */
  function TrList(g: Setting, s: State, ts: seq<Tree>): (r: (State, seq<Tree>))
    requires WellFormed(g) && Fits(g, s)
    decreases Left(g, s.memo), 1, SizeList(ts), 5
    ensures Mono(g, s, r.0) && |r.1| == |ts|
  {
    if |ts| == 0 then (s, [])
    else
      var n := |ts| - 1;
      var p := TrList(g, s, ts[..n]);
      var v := Tr(g, p.0, ts[n]);
      (v.0, p.1 + [v.1])
  }

  function TrOpt(g: Setting, s: State, o: Option<Tree>): (r: (State, Option<Tree>))
    requires WellFormed(g) && Fits(g, s)
    decreases Left(g, s.memo), 1, SizeOpt(o), 5
    ensures Mono(g, s, r.0) && r.1.Some? == o.Some?
  {
    if o.None? then (s, None)
    else
      var v := Tr(g, s, o.value);
      (v.0, Some(v.1))
  }

  /** A method body is translated as a block; the result is a block. */
  function TrBody(g: Setting, s: State, o: Option<BlockNode>): (r: (State, Option<BlockNode>))
    requires WellFormed(g) && Fits(g, s)
    decreases Left(g, s.memo), 1, if o.Some? then SizeBlock(o.value) else 0, 5
    ensures Mono(g, s, r.0) && r.1.Some? == o.Some?
  {
    if o.None? then (s, None)
    else
      var b := o.value;
      var v := Tr(g, s, Block(b));
      (v.0, Some(if v.1.Block? then v.1.block else b))
  }

  /** The statement loop of visitBlock and visitCase: every statement is
      translated, then the list is cut after its first throw. */
  function TrStats(g: Setting, s: State, ts: seq<Tree>): (r: (State, seq<Tree>))
    requires WellFormed(g) && Fits(g, s)
    decreases Left(g, s.memo), 1, SizeList(ts), 6
    ensures Mono(g, s, r.0) && ThrowOnlyLast(r.1)
  {
    var v := TrList(g, s, ts);
    (v.0, CutAfterFirstThrow(v.1))
  }

  // ----- the statement visitors -----

  /** visitBlock: a static block is remembered as the class's static
      initializer when it is the first. */
  function VisBlock(g: Setting, s: State, b: BlockNode): (r: (State, BlockNode))
    requires WellFormed(g) && Fits(g, s)
    decreases Left(g, s.memo), 1, SizeBlock(b), 0
    ensures Mono(g, s, r.0)
    ensures r.1.id == b.id && r.1.info == b.info && r.1.isStatic == b.isStatic && ThrowOnlyLast(r.1.stats)
    ensures !s.fatal && b.isStatic && s.staticInit.None? ==> r.0.staticInit == Some(b.id)
  {
    var s1 := if b.isStatic && s.staticInit.None? then s.(staticInit := Some(b.id)) else s;
    var v := TrStats(g, s1, b.stats);
    (v.0, b.(stats := v.1))
  }

  /** visitVarDef: a field whose translation left the flag set gets an
      erroneous initializer wrapping the throw, positioned at the
      diagnostic's tree (or at the initializer), and the flag and the
      diagnostic are cleared. */
  function VisVarDef(g: Setting, s: State, t: Tree): (r: (State, Tree))
    requires WellFormed(g) && Fits(g, s) && t.VarDef?
    decreases Left(g, s.memo), 1, Size(t), 0
    ensures Mono(g, s, r.0)
    ensures r.1.VarDef? && r.1.info == t.info
    ensures IsField(s.parents) && !r.0.fatal ==> !r.0.hasError
  {
    var h := TrList(g, s, t.header);
    var v := TrOpt(g, h.0, t.init);
    var s1 := v.0;
    if s1.hasError && IsField(s1.parents) then
      var pos := if s1.err.Some? then PosOf(s1.err.value.tree) else if v.1.Some? then InfoOf(v.1.value).pos else NOPOS;
      var msg := ErrMsg(s1.err);
      if g.ctorAvail == NoCtor then (s1.(fatal := true), VarDef(t.info, h.1, v.1))
      else (s1.(hasError := false, err := None), VarDef(t.info, h.1, Some(ErrExpr(g.ctorAvail, pos, msg))))
    else (s1, VarDef(t.info, h.1, v.1))
  }

  /** The variable being visited (on top of the parent stack) is a field:
      the node below it is a class definition. */
  predicate IsField(parents: seq<Tag>) {
    |parents| >= 2 && parents[1] == ClassDefTag
  }

  /** The body of a method after visitMethodDef's cut in an erroneous
      class. */
  function ErrClassBody(isErrClass: bool, name: Text, body: Option<BlockNode>): (r: Option<BlockNode>)
    ensures r.Some? == body.Some?
    ensures isErrClass && r.Some? ==> r.value.stats == ErrClassStats(name, body.value.stats)
    ensures !isErrClass ==> r == body
  {
    if isErrClass && body.Some? then Some(body.value.(stats := ErrClassStats(name, body.value.stats))) else body
  }

  /** visitMethodDef: the parts are translated in order.  In an erroneous
      class only a leading `this(..)` or `super(..)` call of the body
      survives.  A method whose translation left the flag set, unless the
      flag comes from a duplicate definition reported before it, loses
      ABSTRACT, NATIVE and its default value, and its body (made if missing)
      becomes the single throw; the flag and the diagnostic are cleared. */
  function VisMethodDef(g: Setting, s: State, t: Tree): (r: (State, Tree))
    requires WellFormed(g) && Fits(g, s) && t.MethodDef?
    decreases Left(g, s.memo), 1, Size(t), 1
    ensures Mono(g, s, r.0)
    ensures r.1.MethodDef? && r.1.info == t.info && r.1.name == t.name
  {
    var hadDuplicateSymError := s.hasError && s.err.Some? && s.err.value.code == AlreadyDefined;
    var v := TrMethodParts(g, s, t);
    TaintMethod(g, v.0, v.1, hadDuplicateSymError)
  }

  /** The parts of a method, translated in order; in an erroneous class
      only a leading `this(..)` or `super(..)` call of the body survives. */
  function TrMethodParts(g: Setting, s: State, t: Tree): (r: (State, Tree))
    requires WellFormed(g) && Fits(g, s) && t.MethodDef?
    decreases Left(g, s.memo), 1, Size(t), 0
    ensures Mono(g, s, r.0)
    ensures r.1.MethodDef? && r.1.info == t.info && r.1.name == t.name && r.1.methodSym == t.methodSym
    ensures |r.1.header| == |t.header| && |r.1.params| == |t.params| && |r.1.thrown| == |t.thrown|
    ensures (r.1.body.Some? ==> t.body.Some?) && (t.body.Some? && !r.0.isErrClass ==> r.1.body.Some?)
  {
    var a := TrList(g, s, t.header);
    var b := TrList(g, a.0, t.params);
    var c := TrList(g, b.0, t.thrown);
    var d := TrOpt(g, c.0, t.defaultValue);
    var e := TrBody(g, d.0, t.body);
    var body := ErrClassBody(e.0.isErrClass, t.name, e.1);
    (e.0, MethodDef(t.info, t.name, t.methodSym, a.1, b.1, c.1, d.1, body))
  }

  /** A method whose translation left the flag set, unless the flag comes
      from a duplicate definition reported before it, loses ABSTRACT, NATIVE
      and its default value, and its body (made if missing) becomes the
      single throw of the pending diagnostic; the flag and the diagnostic
      are cleared.  Without a usable exception constructor this is
      MissingPlatformError. */
  function TaintMethod(g: Setting, s: State, t: Tree, hadDuplicateSymError: bool): (r: (State, Tree))
    requires Fits(g, s) && t.MethodDef?
    ensures r.1.MethodDef? && r.1.info == t.info && r.1.name == t.name
    ensures r.1.header == t.header && r.1.params == t.params && r.1.thrown == t.thrown
    ensures !(s.hasError && !hadDuplicateSymError) ==> r == (s, t)
    ensures s.hasError && !hadDuplicateSymError ==>
      r.1.defaultValue.None? && r.1.body.Some? && |r.1.body.value.stats| == (if g.ctorAvail == NoCtor then |r.1.body.value.stats| else 1)
    ensures s.hasError && !hadDuplicateSymError && g.ctorAvail != NoCtor ==>
      r.0 == s.(hasError := false, err := None)
      && r.1.body.value.stats == [ErrStat(g.ctorAvail, t.info.pos, ErrMsg(s.err))]
      && (t.methodSym.Some? ==> r.1.methodSym.Some? && !r.1.methodSym.value.isAbstract && !r.1.methodSym.value.isNative && !r.1.methodSym.value.hasDefaultValue)
    ensures s.hasError && !hadDuplicateSymError && g.ctorAvail == NoCtor ==> r.0 == s.(fatal := true)
    ensures Fits(g, r.0)
  {
    if s.hasError && !hadDuplicateSymError then
      var sym := if t.methodSym.Some?
        then Some(t.methodSym.value.(isAbstract := false, isNative := false, hasDefaultValue := false))
        else None;
      var block := if t.body.Some? then t.body.value else BlockNode(GeneratedBlock, Made(t.info.pos), false, []);
      if g.ctorAvail == NoCtor then (s.(fatal := true), MethodDef(t.info, t.name, sym, t.header, t.params, t.thrown, None, Some(block)))
      else
        var stat := ErrStat(g.ctorAvail, t.info.pos, ErrMsg(s.err));
        (s.(hasError := false, err := None), MethodDef(t.info, t.name, sym, t.header, t.params, t.thrown, None, Some(block.(stats := [stat]))))
    else (s, t)
  }

  // ----- classes -----

  /** translateClass: the superclass first; a class in the memo, or
      without an environment, is left alone, any other is repaired. */
  function TrClass(g: Setting, s: State, c: ClassId): (r: State)
    requires WellFormed(g) && Fits(g, s)
    decreases Left(g, s.memo), 0, RankOf(g, c), 1
    ensures Mono(g, s, r)
    ensures r.hasError == s.hasError && r.err == s.err && r.staticInit == s.staticInit
    ensures r.classLevelErrTree == s.classLevelErrTree && r.classLevelErrMessage == s.classLevelErrMessage
    ensures !r.fatal && c in g.envs ==> c in r.memo.repaired
    ensures !r.fatal && c in g.superclass && g.superclass[c] in g.envs ==> g.superclass[c] in r.memo.repaired
  {
    if s.fatal then s
    else
      var s1 := if c in g.superclass then TrClass(g, s, g.superclass[c]) else s;
      if s1.fatal || c in s1.memo.repaired || c !in g.envs then s1
      else RepairOne(g, s1, c)
  }

  /** The repair of one class, once it has entered the memo: its imports
      are translated, then the class itself, and the saved fields are
      restored. */
  function RepairOne(g: Setting, s: State, c: ClassId): (r: State)
    requires WellFormed(g) && Fits(g, s) && c in g.envs && c !in s.memo.repaired
    decreases Left(g, s.memo), 0, RankOf(g, c), 0
    ensures Mono(g, s, r) && c in r.memo.repaired
    ensures r.hasError == s.hasError && r.err == s.err && r.staticInit == s.staticInit
    ensures r.classLevelErrTree == s.classLevelErrTree && r.classLevelErrMessage == s.classLevelErrMessage
    ensures r.memo.trees[c].info == s.memo.trees[c].info
    ensures !r.fatal ==>
      forall m :: m in g.classInfo[c].methods && NeedsErrMethod(g.classInfo[c], s.memo.trees[c].defs, m) ==> DefinesMethod(r.memo.trees[c].defs, m)
  {
    UnrepairedShrinks(g.envs.Keys, s.memo.repaired, c);
    var s1 := s.(memo := s.memo.(repaired := s.memo.repaired + {c}), attrEnv := Some(c), make := Some(g.envs[c].toplevel));
    var s2 := TrImports(g, s1, g.envs[c].imports);
    var v := RepairClass(g, s2, c, s.memo.trees[c], s.hasError, s.err);
    v.0.(memo := v.0.memo.(trees := v.0.memo.trees[c := v.1]),
         staticInit := s.staticInit, classLevelErrTree := s.classLevelErrTree,
         classLevelErrMessage := s.classLevelErrMessage, err := s.err, isErrClass := s.isErrClass,
         hasError := s.hasError, attrEnv := s.attrEnv, make := s.make)
  }

  /** The class itself, after its imports: the header is translated with a
      fresh flag; the class-level error is determined; the members are
      translated; the class-level error becomes a throwing static
      initializer, and every member method without a definition gets a
      throwing one. */
  function RepairClass(g: Setting, s: State, c: ClassId, decl: ClassDecl, outerHasError: bool, outerErr: Option<Diag>)
    : (r: (State, ClassDecl))
    requires WellFormed(g) && Fits(g, s) && c in g.classInfo
    decreases Left(g, s.memo), 1, SizeList(decl.header) + SizeList(decl.defs), 6
    ensures Keeps(g, s, r.0)
    ensures r.1.info == decl.info
    ensures !r.0.fatal ==>
      forall m :: m in g.classInfo[c].methods && NeedsErrMethod(g.classInfo[c], decl.defs, m) ==> DefinesMethod(r.1.defs, m)
  {
    var ci := g.classInfo[c];
    var h := TrList(g, s.(hasError := false, isErrClass := ci.erroneous, err := None, staticInit := None), decl.header);
    var s1 := ClassLevelError(h.0, decl.info.diag, ci.erroneous, outerHasError, outerErr);
    var m := TrMembers(g, s1, c, decl.defs);
    var i := if m.0.classLevelErrTree.Some? then AddClassLevelInit(g, m.0, m.1) else m;
    var e := AddErrMethods(g, i.0, MissingMethods(ci, decl.defs, ci.methods), i.1);
    (e.0, ClassDecl(decl.info, h.1, e.1))
  }

  /** After the header: unless the flag is up already, the class's own
      diagnostic becomes the current one, raising the flag and marking the
      class erroneous.  A flagged diagnostic is the class-level error (and
      marks the class erroneous); failing that, for an erroneous class, the
      diagnostic pending outside the class is. */
  function ClassLevelError(s: State, diag: Option<Diag>, erroneous: bool, outerHasError: bool, outerErr: Option<Diag>): (r: State)
    ensures r == s.(hasError := r.hasError, err := r.err, isErrClass := r.isErrClass,
                    classLevelErrTree := r.classLevelErrTree, classLevelErrMessage := r.classLevelErrMessage)
    ensures !s.hasError ==> r.err == diag && r.hasError == diag.Some? && (diag.Some? ==> r.isErrClass)
    ensures s.hasError ==> r.hasError && r.err == s.err
    ensures r.hasError && r.err.Some? ==>
      r.isErrClass && r.classLevelErrTree == r.err.value.tree && r.classLevelErrMessage == Some(r.err.value.message)
    ensures !(r.hasError && r.err.Some?) && erroneous && outerHasError && outerErr.Some? ==>
      r.classLevelErrTree == outerErr.value.tree && r.classLevelErrMessage == Some(outerErr.value.message)
    ensures !(r.hasError && r.err.Some?) && !(erroneous && outerHasError && outerErr.Some?) ==>
      r.classLevelErrTree == s.classLevelErrTree && r.classLevelErrMessage == s.classLevelErrMessage
  {
    var s1 := if !s.hasError && diag.Some? then s.(err := diag, hasError := true, isErrClass := true)
      else if !s.hasError then s.(err := None)
      else s;
    if s1.hasError && s1.err.Some?
    then s1.(isErrClass := true, classLevelErrTree := s1.err.value.tree, classLevelErrMessage := Some(s1.err.value.message))
    else if erroneous && outerHasError && outerErr.Some?
    then s1.(classLevelErrTree := outerErr.value.tree, classLevelErrMessage := Some(outerErr.value.message))
    else s1
  }

  /** The imports of the class's compilation unit, in order, until one
      leaves a class-level error behind. */
  function TrImports(g: Setting, s: State, imports: seq<Tree>): (r: State)
    requires WellFormed(g) && Fits(g, s)
    decreases Left(g, s.memo), 1, SizeList(imports), 5
    ensures Mono(g, s, r)
  {
    if |imports| == 0 then s
    else
      var n := |imports| - 1;
      var p := TrImports(g, s, imports[..n]);
      if n > 0 && p.classLevelErrTree.Some? then p
      else Tr(g, p, imports[n]).0
  }

  /** The member loop of translateClass: each definition is translated
      with the flag cleared first; a definition that leaves the flag set is
      dropped, unless it is a class definition of a member class, and the
      first such error becomes the class-level error. */
  function TrMembers(g: Setting, s: State, c: ClassId, defs: seq<Tree>): (r: (State, seq<Tree>))
    requires WellFormed(g) && Fits(g, s) && c in g.classInfo
    decreases Left(g, s.memo), 1, SizeList(defs), 5
    ensures Mono(g, s, r.0) && |r.1| <= |defs|
  {
    if |defs| == 0 then (s, [])
    else
      var n := |defs| - 1;
      var p := TrMembers(g, s, c, defs[..n]);
      var v := Tr(g, p.0.(hasError := false, err := None), defs[n]);
      var s1 := v.0;
      if s1.hasError then
        var kept := if v.1.ClassDef? && v.1.classSym in g.classInfo[c].memberClasses then [v.1] else [];
        var s2 := if s1.classLevelErrTree.Some? then s1
          else if s1.err.Some? then s1.(classLevelErrTree := s1.err.value.tree, classLevelErrMessage := Some(s1.err.value.message))
          else s1.(classLevelErrTree := Some(InfoOf(v.1).pos));
        (s2, p.1 + kept)
      else (s1, p.1 + [v.1])
  }

  /** The class-level error's throw: the first static initializer's
      statements become that throw, or a static block holding it is
      prepended. */
  function AddClassLevelInit(g: Setting, s: State, defs: seq<Tree>): (r: (State, seq<Tree>))
    requires Fits(g, s) && s.classLevelErrTree.Some?
    ensures r.0 == s.(fatal := r.0.fatal) && Fits(g, r.0)
    ensures g.ctorAvail == NoCtor ==> r == (s.(fatal := true), defs)
    ensures g.ctorAvail != NoCtor && s.staticInit.Some? ==>
      r.1 == ReplaceStaticInit(defs, s.staticInit.value, ErrStat(g.ctorAvail, s.classLevelErrTree.value, s.classLevelErrMessage))
    ensures g.ctorAvail != NoCtor && s.staticInit.None? ==>
      r.1 == [Block(ErrStaticInit(g.ctorAvail, s.classLevelErrTree.value, s.classLevelErrMessage))] + defs
  {
    if g.ctorAvail == NoCtor then (s.(fatal := true), defs)
    else if s.staticInit.Some? then
      (s, ReplaceStaticInit(defs, s.staticInit.value, ErrStat(g.ctorAvail, s.classLevelErrTree.value, s.classLevelErrMessage)))
    else (s, [Block(ErrStaticInit(g.ctorAvail, s.classLevelErrTree.value, s.classLevelErrMessage))] + defs)
  }

  /** A synthesized throwing method prepended for each symbol, in order. */
  function AddErrMethods(g: Setting, s: State, ms: seq<MethodSym>, defs: seq<Tree>): (r: (State, seq<Tree>))
    requires Fits(g, s)
    ensures r.0 == s.(fatal := r.0.fatal) && Fits(g, r.0) && (s.fatal ==> r.0.fatal)
    ensures !r.0.fatal ==> |r.1| == |ms| + |defs| && r.1[|ms|..] == defs
    ensures !r.0.fatal ==> forall m :: m in ms ==> DefinesMethod(r.1, m)
    ensures |ms| > 0 && g.ctorAvail == NoCtor ==> r.0.fatal
  {
    if |ms| == 0 then (s, defs)
    else if g.ctorAvail == NoCtor then (s.(fatal := true), defs)
    else
      PrependErrMethodsDefines(g.ctorAvail, ms, defs);
      (s, PrependErrMethods(g.ctorAvail, ms, defs))
  }

  // ----- entry points -----

  /** translateTopLevelClass: the tree is translated in the given
      environment with a fresh flag and parent stack; the environment and
      the tree maker are dropped afterwards, and MissingPlatformError
      propagates to the caller. */
  function TrTopLevel(g: Setting, s: State, env: ClassId, tree: Tree, localMake: nat): (r: (State, Result<Tree, Fatal>))
    requires WellFormed(g) && s.memo.trees.Keys == g.envs.Keys
    ensures Fits(g, r.0) && Grows(g, s.memo, r.0.memo)
    ensures r.0.attrEnv.None? && r.0.make.None? && r.0.parents == []
    ensures r.1.Failure? <==> r.0.fatal
    ensures r.1.Failure? ==> r.1.error == MissingPlatformError(CantLocateCtor) && g.ctorAvail == NoCtor
  {
    var s1 := s.(attrEnv := Some(env), make := Some(localMake), hasError := false, parents := [], fatal := false);
    var v := Tr(g, s1, tree);
    var s2 := v.0.(attrEnv := None, make := None);
    (s2, if s2.fatal then Failure(MissingPlatformError(CantLocateCtor)) else Success(v.1))
  }

  /** Adding a class that is not yet repaired to the memo shrinks the number
      of classes left to repair. */
  lemma UnrepairedShrinks(all: set<ClassId>, repaired: set<ClassId>, c: ClassId)
    requires c in all && c !in repaired
    ensures |all - (repaired + {c})| < |all - repaired|
  {
    assert all - (repaired + {c}) == (all - repaired) - {c};
  }
}

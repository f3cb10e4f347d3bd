/** The annotation bookkeeping of member entry.  annotateLater queues an
    annotator for a symbol's annotations.  Running it groups the annotations
    by the symbol of their type, in order of first appearance, reports a
    duplicate unless repeated annotations are allowed, and marks the symbol
    DEPRECATED for a Deprecated annotation that is not on a local variable or a
    parameter.  What Annotate.enterAnnotation makes of an annotation is an
    oracle that each annotation tree carries; Annotations.java is not part
    of this model, so a symbol's annotations are modelled as not started,
    pending, or entered with the map handed to the repeated-annotation
    context. */
module MemberAnnotations {
  import opened Wrappers
  import opened JavaText
  import opened MemberSymbols
  import opened MemberTypes

  const DuplicateAnnotation: Text := "duplicate.annotation"
  const AlreadyAnnotated: Text := "already.annotated"

  /** An attribute compound: its type and an identity. */
  datatype Compound = Compound(ctype: Ty, id: nat)

  /** An annotation tree: the type of its annotation type expression, its
      arguments, the name of the symbol of its attributed type, and the
      compound Annotate.enterAnnotation makes of it (None for null). */
  datatype AnnotationTree = AnnotationTree(annotationType: Ty, args: seq<Text>, tsym: Text, entered: Option<Compound>)

  /** A symbol's annotations: never touched, reset to be completed later,
      or entered with the compounds grouped by type, keys in order. */
  datatype Metadata =
    | NotStarted
    | Pending
    | Entered(keys: seq<Text>, annotated: map<Text, seq<Compound>>)

  /** Annotations.isEmpty: nothing has been entered yet, or no compound. */
  predicate IsEmpty(m: Metadata) {
    !m.Entered? || m.keys == []
  }

  predicate Distinct(s: seq<Text>) {
    forall i, j :: 0 <= i < j < |s| ==> s[i] != s[j]
  }

  /** The test of hasDeprecatedAnnotation: the annotation's type is
      java.lang.Deprecated itself and it has no arguments. */
  predicate MarksDeprecated(a: AnnotationTree, deprecatedType: Ty) {
    a.annotationType == deprecatedType && a.args == []
  }

  /** hasDeprecatedAnnotation: whether some annotation of the list marks
      the declaration deprecated. */
  method HasDeprecatedAnnotation(anns: seq<AnnotationTree>, deprecatedType: Ty) returns (b: bool)
    ensures b <==> exists i :: 0 <= i < |anns| && MarksDeprecated(anns[i], deprecatedType)
  {
    var i := 0;
    while i < |anns|
      invariant 0 <= i <= |anns|
      invariant forall j :: 0 <= j < i ==> !MarksDeprecated(anns[j], deprecatedType)
    {
      if MarksDeprecated(anns[i], deprecatedType) {
        return true;
      }
      i := i + 1;
    }
    return false;
  }

  /** The test of enterAnnotations for DEPRECATED: a compound whose type is
      not erroneous and is java.lang.Deprecated, on a symbol not owned by a
      method. */
  predicate Deprecates(same: (Ty, Ty) -> bool, deprecatedType: Ty, ownerKind: Kind, c: Compound) {
    !Erroneous(c.ctype) && ownerKind != Mth && same(c.ctype, deprecatedType)
  }

  /** What enterAnnotations builds from a list of annotations: the types in
      order, the compounds of each type, the errors it logs and whether it
      sets DEPRECATED. */
  datatype Grouping = Grouping(keys: seq<Text>, annotated: map<Text, seq<Compound>>, errors: seq<Text>, deprecated: bool)

  /** The grouping after the annotations of `anns`, one at a time. */
  function Group(anns: seq<AnnotationTree>, allowRepeated: bool, same: (Ty, Ty) -> bool, deprecatedType: Ty,
                 ownerKind: Kind): Grouping
    decreases |anns|
  {
    if anns == [] then Grouping([], map[], [], false)
    else
      var g := Group(anns[..|anns| - 1], allowRepeated, same, deprecatedType, ownerKind);
      var a := anns[|anns| - 1];
      if a.entered.None? then g
      else
        var c := a.entered.value;
        var g1 :=
          if a.tsym !in g.annotated then g.(keys := g.keys + [a.tsym], annotated := g.annotated[a.tsym := [c]])
          else if allowRepeated then g.(annotated := g.annotated[a.tsym := g.annotated[a.tsym] + [c]])
          else g.(errors := g.errors + [DuplicateAnnotation]);
        g1.(deprecated := g1.deprecated || Deprecates(same, deprecatedType, ownerKind, c))
  }

  /** The compounds of the annotations of type `k`, in order. */
  function OfType(anns: seq<AnnotationTree>, k: Text): (r: seq<Compound>)
    ensures |r| <= |anns|
    decreases |anns|
  {
    if anns == [] then []
    else
      var a := anns[|anns| - 1];
      OfType(anns[..|anns| - 1], k) + (if a.entered.Some? && a.tsym == k then [a.entered.value] else [])
  }

  /** The number of annotations that attribution turned into compounds. */
  function EnteredCount(anns: seq<AnnotationTree>): (n: nat)
    ensures n <= |anns|
    decreases |anns|
  {
    if anns == [] then 0
    else EnteredCount(anns[..|anns| - 1]) + (if anns[|anns| - 1].entered.Some? then 1 else 0)
  }

  /** The keys are distinct and are exactly the types that occur, each with
      at least one compound. */
  lemma {:induction false} GroupKeys(anns: seq<AnnotationTree>, allowRepeated: bool, same: (Ty, Ty) -> bool,
                                     deprecatedType: Ty, ownerKind: Kind)
    ensures var g := Group(anns, allowRepeated, same, deprecatedType, ownerKind);
      Distinct(g.keys) && (forall k :: k in g.keys <==> k in g.annotated)
      && (forall k :: k in g.annotated <==> OfType(anns, k) != [])
      && (forall k :: k in g.annotated ==> g.annotated[k] != [])
    decreases |anns|
  {
    if anns != [] {
      var init, a := anns[..|anns| - 1], anns[|anns| - 1];
      GroupKeys(init, allowRepeated, same, deprecatedType, ownerKind);
      var g0 := Group(init, allowRepeated, same, deprecatedType, ownerKind);
      if a.entered.Some? && a.tsym !in g0.annotated {
        DistinctSnoc(g0.keys, a.tsym);
      }
    }
  }

  lemma DistinctSnoc(s: seq<Text>, x: Text)
    requires Distinct(s) && x !in s
    ensures Distinct(s + [x])
  {
  }

  /** With repeated annotations allowed nothing is reported, and each type
      maps to all of its compounds in order. */
  lemma {:induction false} GroupRepeated(anns: seq<AnnotationTree>, same: (Ty, Ty) -> bool, deprecatedType: Ty,
                                         ownerKind: Kind)
    ensures var g := Group(anns, true, same, deprecatedType, ownerKind);
      g.errors == [] && forall k :: k in g.annotated ==> g.annotated[k] == OfType(anns, k)
    decreases |anns|
  {
    if anns != [] {
      GroupRepeated(anns[..|anns| - 1], same, deprecatedType, ownerKind);
      GroupKeys(anns[..|anns| - 1], true, same, deprecatedType, ownerKind);
    }
  }

  /** Without repeated annotations each type keeps its first compound. */
  lemma {:induction false} GroupUnrepeated(anns: seq<AnnotationTree>, same: (Ty, Ty) -> bool, deprecatedType: Ty,
                                           ownerKind: Kind)
    ensures var g := Group(anns, false, same, deprecatedType, ownerKind);
      forall k :: k in g.annotated ==> OfType(anns, k) != [] && g.annotated[k] == OfType(anns, k)[..1]
    decreases |anns|
  {
    if anns != [] {
      var init := anns[..|anns| - 1];
      GroupUnrepeated(init, same, deprecatedType, ownerKind);
      GroupKeys(init, false, same, deprecatedType, ownerKind);
      var a := anns[|anns| - 1];
      var g0 := Group(init, false, same, deprecatedType, ownerKind);
      var g := Group(anns, false, same, deprecatedType, ownerKind);
      if a.entered.Some? && a.tsym in g0.annotated {
        assert g.annotated == g0.annotated;
        assert OfType(anns, a.tsym)[..1] == OfType(init, a.tsym)[..1];
      }
    }
  }

  /** Without repeated annotations every further annotation of a type
      already seen is reported once as a duplicate, so the errors and the
      types together account for every compound. */
  lemma {:induction false} GroupDuplicates(anns: seq<AnnotationTree>, same: (Ty, Ty) -> bool, deprecatedType: Ty,
                                           ownerKind: Kind)
    ensures var g := Group(anns, false, same, deprecatedType, ownerKind);
      (forall i :: 0 <= i < |g.errors| ==> g.errors[i] == DuplicateAnnotation)
      && |g.errors| + |g.keys| == EnteredCount(anns)
    decreases |anns|
  {
    if anns != [] {
      GroupDuplicates(anns[..|anns| - 1], same, deprecatedType, ownerKind);
    }
  }

  /** DEPRECATED is set exactly when some annotation's compound deprecates
      the symbol. */
  lemma {:induction false} GroupDeprecated(anns: seq<AnnotationTree>, allowRepeated: bool, same: (Ty, Ty) -> bool,
                                           deprecatedType: Ty, ownerKind: Kind)
    ensures Group(anns, allowRepeated, same, deprecatedType, ownerKind).deprecated <==>
      exists i :: 0 <= i < |anns| && anns[i].entered.Some? && Deprecates(same, deprecatedType, ownerKind, anns[i].entered.value)
    decreases |anns|
  {
    if anns != [] {
      var init := anns[..|anns| - 1];
      GroupDeprecated(init, allowRepeated, same, deprecatedType, ownerKind);
      var a := anns[|anns| - 1];
      if a.entered.Some? && Deprecates(same, deprecatedType, ownerKind, a.entered.value) {
        assert anns[|anns| - 1] == a;
      } else if exists i :: 0 <= i < |anns| && anns[i].entered.Some? && Deprecates(same, deprecatedType, ownerKind, anns[i].entered.value) {
        var i :| 0 <= i < |anns| && anns[i].entered.Some? && Deprecates(same, deprecatedType, ownerKind, anns[i].entered.value);
        assert i < |init| && init[i] == anns[i];
      }
    }
  }

  /** A symbol being annotated, with the error log, and the annotators
      queued for it by annotate.normal. */
  class AnnotatedSymbol {
    const kind: Kind
    /** The kind of the symbol's owner. */
    const ownerKind: Kind
    /** syms.deprecatedType. */
    const deprecatedType: Ty
    /** Types.isSameType. */
    const same: (Ty, Ty) -> bool
    /** Source.allowRepeatedAnnotations. */
    const allowRepeated: bool
    var flags: set<Flag>
    var metadata: Metadata
    /** The annotation lists of the queued annotators, in order. */
    var queue: seq<seq<AnnotationTree>>
    var log: seq<Text>

    constructor(kind: Kind, ownerKind: Kind, deprecatedType: Ty, same: (Ty, Ty) -> bool, allowRepeated: bool,
                flags: set<Flag>, metadata: Metadata)
      ensures this.kind == kind && this.ownerKind == ownerKind && this.deprecatedType == deprecatedType
      ensures this.same == same && this.allowRepeated == allowRepeated
      ensures this.flags == flags && this.metadata == metadata && queue == [] && log == []
    {
      this.kind := kind;
      this.ownerKind := ownerKind;
      this.deprecatedType := deprecatedType;
      this.same := same;
      this.allowRepeated := allowRepeated;
      this.flags := flags;
      this.metadata := metadata;
      queue := [];
      log := [];
    }

    /** annotateLater: nothing for no annotations.  Otherwise the symbol's
        annotations are reset to pending, except on a package not cleaned
        by annotation processing, and an annotator is queued. */
    method AnnotateLater(anns: seq<AnnotationTree>)
      modifies this`metadata, this`queue
      ensures anns == [] ==> metadata == old(metadata) && queue == old(queue)
      ensures anns != [] ==>
        queue == old(queue) + [anns] && metadata == (if kind != Pck || AptCleaned in flags then Pending else old(metadata))
    {
      if anns == [] {
        return;
      }
      if kind != Pck || AptCleaned in flags {
        metadata := Pending;
      }
      queue := queue + [anns];
    }

    /** The queued annotator: it reports annotations arriving for a symbol
        that already has some, then enters them. */
    method RunAnnotator()
      requires queue != [] && (kind == Pck || metadata.Pending?)
      modifies this`metadata, this`queue, this`flags, this`log
      ensures var anns := old(queue[0]);
        var g := Group(anns, allowRepeated, same, deprecatedType, ownerKind);
        queue == old(queue[1..]) && metadata == Entered(g.keys, g.annotated)
        && flags == old(flags) + (if g.deprecated then {Deprecated} else {})
        && log == old(log) + (if !IsEmpty(old(metadata)) && anns != [] then [AlreadyAnnotated] else []) + g.errors
    {
      var anns := queue[0];
      queue := queue[1..];
      if !IsEmpty(metadata) && anns != [] {
        log := log + [AlreadyAnnotated];
      }
      EnterAnnotations(anns);
    }

    /** enterAnnotations: the annotations are grouped by type in order of
        first appearance, a repeated type is appended to its group when
        repeated annotations are allowed and reported as a duplicate
        otherwise, and DEPRECATED is set along the way; the grouping is
        then handed over as the symbol's annotations. */
    method EnterAnnotations(anns: seq<AnnotationTree>)
      modifies this`metadata, this`flags, this`log
      ensures var g := Group(anns, allowRepeated, same, deprecatedType, ownerKind);
        metadata == Entered(g.keys, g.annotated)
        && flags == old(flags) + (if g.deprecated then {Deprecated} else {})
        && log == old(log) + g.errors
    {
      var keys: seq<Text> := [];
      var annotated: map<Text, seq<Compound>> := map[];
      ghost var deprecated := false;
      var i := 0;
      while i < |anns|
        invariant 0 <= i <= |anns|
        invariant var g := Group(anns[..i], allowRepeated, same, deprecatedType, ownerKind);
          keys == g.keys && annotated == g.annotated && deprecated == g.deprecated
          && flags == old(flags) + (if g.deprecated then {Deprecated} else {}) && log == old(log) + g.errors
      {
        assert anns[..i + 1][..i] == anns[..i];
        var a := anns[i];
        i := i + 1;
        if a.entered.None? {
          continue;
        }
        var c := a.entered.value;
        if a.tsym in annotated {
          if allowRepeated {
            annotated := annotated[a.tsym := annotated[a.tsym] + [c]];
          } else {
            log := log + [DuplicateAnnotation];
          }
        } else {
          keys := keys + [a.tsym];
          annotated := annotated[a.tsym := [c]];
        }
        if !Erroneous(c.ctype) && ownerKind != Mth && same(c.ctype, deprecatedType) {
          flags := flags + {Deprecated};
          deprecated := true;
        }
      }
      assert anns[..i] == anns;
      metadata := Entered(keys, annotated);
    }
  }
}

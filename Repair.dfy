/** The error-repair phase as the object the compiler holds: its fields are
    those of the traversal state, its entry points are translating a
    top-level class and flushing the memo of repaired classes.  A thrown
    MissingPlatformError leaves no field behind (every field it could
    change is restored on the way out or reset by the next entry), so the
    object has no field for it. */
module Repair {
  import opened Wrappers
  import opened JavaText
  import opened RepairTrees
  import opened RepairTraversal

  class Repairer {
    const g: Setting
    var trees: map<ClassId, ClassDecl>
    var repairedClasses: set<ClassId>
    var hasError: bool
    var err: Option<Diag>
    var isErrClass: bool
    var classLevelErrTree: Option<int>
    var classLevelErrMessage: Option<Text>
    var staticInit: Option<int>
    var parents: seq<Tag>
    var attrEnv: Option<ClassId>
    var make: Option<nat>

    /** The fields as a traversal state. */
    function State(): (s: State)
      reads this
      ensures s.memo.repaired == repairedClasses && s.memo.trees == trees && !s.fatal
    {
      RepairTraversal.State(Memo(trees, repairedClasses), hasError, err, isErrClass, classLevelErrTree,
        classLevelErrMessage, staticInit, parents, attrEnv, make, false)
    }

    predicate Valid()
      reads this
    {
      WellFormed(g) && trees.Keys == g.envs.Keys
    }

    /** The phase's instance for a compilation: nothing repaired yet. */
    constructor(setting: Setting, classTrees: map<ClassId, ClassDecl>)
      requires WellFormed(setting) && classTrees.Keys == setting.envs.Keys
      ensures Valid() && g == setting && trees == classTrees && repairedClasses == {}
      ensures !hasError && err.None? && parents == [] && attrEnv.None? && make.None?
    {
      g := setting;
      trees := classTrees;
      repairedClasses := {};
      hasError := false;
      err := None;
      isErrClass := false;
      classLevelErrTree := None;
      classLevelErrMessage := None;
      staticInit := None;
      parents := [];
      attrEnv := None;
      make := None;
    }

    /** translateTopLevelClass: the tree is translated in the class's
        environment with a fresh flag and an empty parent stack; the
        environment and tree maker are cleared afterwards, also when
        MissingPlatformError is thrown. */
    method TranslateTopLevelClass(env: ClassId, tree: Tree, localMake: nat) returns (r: Result<Tree, Fatal>)
      requires Valid()
      modifies this
      ensures Valid()
      ensures r == TrTopLevel(g, old(State()), env, tree, localMake).1
      ensures State() == TrTopLevel(g, old(State()), env, tree, localMake).0.(fatal := false)
      ensures attrEnv.None? && make.None? && parents == []
      ensures old(repairedClasses) <= repairedClasses
    {
      var v := TrTopLevel(g, State(), env, tree, localMake);
      Load(v.0);
      r := v.1;
    }

    /** The fields take the values of a traversal state. */
    method Load(s: State)
      modifies this
      ensures State() == s.(fatal := false)
    {
      trees := s.memo.trees;
      repairedClasses := s.memo.repaired;
      hasError := s.hasError;
      err := s.err;
      isErrClass := s.isErrClass;
      classLevelErrTree := s.classLevelErrTree;
      classLevelErrMessage := s.classLevelErrMessage;
      staticInit := s.staticInit;
      parents := s.parents;
      attrEnv := s.attrEnv;
      make := s.make;
    }

    /** flush: the memo of repaired classes is cleared, so every class is
        repaired again when next translated; nothing else changes. */
    method Flush()
      requires Valid()
      modifies this
      ensures Valid()
      ensures State() == old(State()).(memo := old(State()).memo.(repaired := {}))
    {
      repairedClasses := {};
    }
  }
}

/** The Filer of annotation processing (JavacFiler): name validation,
    module/name splitting, the rules that every type and every file is
    created at most once, the open-once and close-once wrappers of the
    output files, and the per-round and cross-round bookkeeping.

    The file manager and the element utilities are oracles held in const
    fields; two file objects are the same file exactly when their ids are
    equal. */
module Filer {
  import opened Wrappers
  import opened JavaText

  type FileId = nat

  /** What kind of file object the file manager returned: a Java file object
      of kind SOURCE, CLASS or another kind, or a plain file object. */
  datatype FileKind = SourceFile | ClassFile | OtherJavaFile | PlainFile

  datatype FileObject = FileObject(id: FileId, name: Text, kind: FileKind)

  datatype ModuleSymbol = ModuleSymbol(id: nat, unnamed: bool)

  /** The module system as far as the Filer asks it: module lookup by name,
      whether a module is a root module, multi-module mode and the default module. */
  datatype ModuleEnv = ModuleEnv(
    lookup: Text -> Option<ModuleSymbol>,
    isRootModule: ModuleSymbol -> bool,
    multiModuleMode: bool,
    defaultModule: ModuleSymbol)

  /** A location: a StandardLocation or any other location, each with its
      name and whether it is an output location (isOutputLocation). */
  datatype Location = StandardLocation(locationName: Text, isOutput: bool) | CustomLocation(locationName: Text, isOutput: bool)

  /** The exceptions the Filer throws: FilerException, IOException,
      IllegalStateException, IllegalArgumentException, FileNotFoundException
      and the AssertionError of closeFileObject. */
  datatype FilerError =
    | FilerException(message: Text)
    | IOFailure(message: Text)
    | IllegalState(message: Text)
    | IllegalArgument(message: Text)
    | FileNotFound(path: Text)
    | AssertionFailure

  datatype Warning = Warning(key: Text, args: seq<Text>)

  const AlreadyOpened: Text := "Output stream or writer has already been opened."
  const NotForReading: Text := "FileObject was not opened for reading."
  const NotForWriting: Text := "FileObject was not opened for writing."
  const PackageInfo: Text := "package-info"
  /** ".package-info", the suffix of a package-info name in a package. */
  const DotPackageInfo: Text := ['.'] + PackageInfo

  /** checkOrInferModule: with a slash, the module named before the first
      slash, which must exist and be a root module, and the rest as the
      name; without one, the default module, unless in multi-module mode. */
  function CheckOrInferModule(env: ModuleEnv, moduleAndPkg: Text): (r: Result<(ModuleSymbol, Text), FilerError>)
    ensures '/' !in moduleAndPkg ==>
      (r.Failure? <==> env.multiModuleMode)
      && (r.Failure? ==> r.error == FilerException("No module to write to specified!"))
      && (r.Success? ==> r.value == (env.defaultModule, moduleAndPkg))
    ensures '/' in moduleAndPkg ==>
      var slash := IndexOf(moduleAndPkg, '/');
      var moduleName := moduleAndPkg[..slash];
      (r.Success? <==> env.lookup(moduleName).Some? && env.isRootModule(env.lookup(moduleName).value))
      && (env.lookup(moduleName).None? ==> r == Failure(FilerException("Module: " + moduleName + " does not exist.")))
      && (r.Success? ==> r.value == (env.lookup(moduleName).value, moduleAndPkg[slash + 1..]))
  {
    var slash := IndexOf(moduleAndPkg, '/');
    if slash != -1 then
      var moduleName := moduleAndPkg[..slash];
      match env.lookup(moduleName)
      case None => Failure(FilerException("Module: " + moduleName + " does not exist."))
      case Some(explicitModule) =>
        if !env.isRootModule(explicitModule) then Failure(FilerException("Cannot write to the given module!"))
        else Success((explicitModule, moduleAndPkg[slash + 1..]))
    else if env.multiModuleMode then Failure(FilerException("No module to write to specified!"))
    else Success((env.defaultModule, moduleAndPkg))
  }

  /** A module name without a slash and a name joined by one split back
      into the module and the name, whatever the name contains. */
  lemma CheckOrInferModuleSplits(env: ModuleEnv, moduleName: Text, name: Text)
    requires '/' !in moduleName
    requires env.lookup(moduleName).Some? && env.isRootModule(env.lookup(moduleName).value)
    ensures CheckOrInferModule(env, moduleName + "/" + name) == Success((env.lookup(moduleName).value, name))
  {
    var s := moduleName + "/" + name;
    IndexOfAfter(moduleName, '/', name);
    assert s[..|moduleName|] == moduleName;
    assert s[|moduleName| + 1..] == name;
  }

  /** The last segment after a period is "package-info" exactly when the
      name ends in ".package-info". */
  lemma LastSegmentPackageInfo(name: Text)
    ensures var i := LastIndexOf(name, '.');
      (i != -1 && name[i + 1..] == PackageInfo) <==> (|name| >= 13 && name[|name| - 13..] == DotPackageInfo)
    ensures |name| >= 13 && name[|name| - 13..] == DotPackageInfo ==> LastIndexOf(name, '.') == |name| - 13
  {
    assert |PackageInfo| == 12 && '.' !in PackageInfo;
    LastSegmentIs(name, '.', PackageInfo);
  }

  /** For a text p without the separator: the last separator of a name is
      followed by exactly p when the name ends in the separator and p. */
  lemma LastSegmentIs(name: Text, sep: char, p: Text)
    requires sep !in p
    ensures var i := LastIndexOf(name, sep);
      (i != -1 && name[i + 1..] == p) <==> (|name| > |p| && name[|name| - |p| - 1..] == [sep] + p)
    ensures |name| > |p| && name[|name| - |p| - 1..] == [sep] + p ==> LastIndexOf(name, sep) == |name| - |p| - 1
  {
    var i := LastIndexOf(name, sep);
    var k := |name| - |p| - 1;
    if i != -1 && name[i + 1..] == p {
      SuffixOfLastSegment(name, sep, p, i);
    }
    if |name| > |p| && name[k..] == [sep] + p {
      var prefix := name[..k];
      assert name == prefix + [sep] + p by {
        assert name == prefix + name[k..];
      }
      LastIndexOfBefore(prefix, sep, p);
      assert name[i + 1..] == name[k..][1..];
    }
  }

  /** A separator followed by p up to the end makes the name end in the
      separator and p. */
  lemma SuffixOfLastSegment(name: Text, sep: char, p: Text, i: nat)
    requires i < |name| && name[i] == sep && name[i + 1..] == p
    ensures |name| > |p| && name[|name| - |p| - 1..] == [sep] + p
  {
    var rest := name[i + 1..];
    assert |name| - |p| - 1 == i;
    assert name[i..] == [name[i]] + rest;
  }

  /** isPackageInfo: "package-info" itself when allowed, or a valid name
      followed by ".package-info". */
  function IsPackageInfo(name: Text, allowUnnamedPackageInfo: bool): (b: bool)
    ensures b <==>
      (allowUnnamedPackageInfo && name == PackageInfo)
      || (|name| >= 13 && name[|name| - 13..] == DotPackageInfo && IsName(name[..|name| - 13]))
  {
    var periodIndex := LastIndexOf(name, '.');
    LastSegmentPackageInfo(name);
    if periodIndex == -1 then
      allowUnnamedPackageInfo && name == PackageInfo
    else
      var prefix := name[..periodIndex];
      var simple := name[periodIndex + 1..];
      assert name != PackageInfo by {
        assert name[periodIndex] == '.';
        assert '.' !in PackageInfo;
      }
      IsName(prefix) && simple == PackageInfo
  }

  /** Every valid name followed by ".package-info" is a package-info name. */
  lemma PackageInfoOfName(prefix: Text, allowUnnamedPackageInfo: bool)
    requires IsName(prefix)
    ensures IsPackageInfo(prefix + DotPackageInfo, allowUnnamedPackageInfo)
  {
    var name := prefix + DotPackageInfo;
    assert |name| - 13 == |prefix|;
    assert name[|prefix|..] == DotPackageInfo;
    assert name[..|prefix|] == prefix;
  }

  /** No package-info name is also a valid name: its last segment holds a '-'. */
  lemma PackageInfoIsNotName(name: Text, allowUnnamedPackageInfo: bool)
    requires IsPackageInfo(name, allowUnnamedPackageInfo)
    ensures !IsName(name)
  {
    var i := |name| - 5;
    assert PackageInfo[7] == '-';
    if name == PackageInfo {
      assert name[i] == '-';
    } else {
      var tail := name[|name| - 13..];
      assert tail == DotPackageInfo;
      assert name[i] == tail[8] == PackageInfo[7];
    }
    DashIsNotName(name, i);
  }

  /** A text holding a '-' is not a name. */
  lemma DashIsNotName(t: Text, i: nat)
    requires i < |t| && t[i] == '-'
    ensures !IsName(t)
  {
    if IsName(t) {
      DottedCharacters(t, i);
    }
  }

  /** What checkName accepts: a valid name or a package-info name. */
  predicate NameAcceptable(name: Text, allowUnnamedPackageInfo: bool) {
    IsName(name) || IsPackageInfo(name, allowUnnamedPackageInfo)
  }

  /** locationCheck: a standard location that is not an output location is refused. */
  function LocationCheck(location: Location): (r: Result<(), FilerError>)
    ensures r.Failure? <==> location.StandardLocation? && !location.isOutput
    ensures r.Failure? ==>
      r.error == IllegalArgument("Resource creation not supported in location " + location.locationName)
  {
    match location
    case StandardLocation(n, isOutput) =>
      if !isOutput then Failure(IllegalArgument("Resource creation not supported in location " + n))
      else Success(())
    case CustomLocation(_, _) => Success(())
  }

  /** The lint check of createSourceOrClassFile: the name ends, from its
      last period on, with the extension of the file being created. */
  function SuspiciousExtension(name: Text, isSourceFile: bool): (extn: Option<Text>)
    ensures extn.Some? <==> '.' in name && name[LastIndexOf(name, '.')..] == (if isSourceFile then ".java" else ".class")
    ensures extn.Some? ==> extn.value == (if isSourceFile then ".java" else ".class")
  {
    var periodIndex := LastIndexOf(name, '.');
    if periodIndex != -1 then
      var base := name[periodIndex..];
      var e := if isSourceFile then ".java" else ".class";
      if base == e then Some(e) else None
    else None
  }

  /** When the name's last segment is the extension of the file, lint
      warns about it. */
  lemma SuspiciousExtensionOf(prefix: Text, isSourceFile: bool)
    ensures SuspiciousExtension(prefix + (if isSourceFile then ".java" else ".class"), isSourceFile).Some?
  {
    var e: Text := if isSourceFile then ".java" else ".class";
    var name := prefix + e;
    assert name[|prefix|] == '.';
    assert '.' !in name[|prefix| + 1..];
    assert LastIndexOf(name, '.') == |prefix|;
    assert name[|prefix|..] == e;
  }

  /** An element as findTopLevel sees it: whether it is a package. */
  datatype Element = Element(id: nat, isPackage: bool)

  /** The first index of a package in an enclosing chain, if any. */
  function FirstPackage(chain: seq<Element>): (k: int)
    ensures -1 <= k < |chain|
    ensures k == -1 <==> forall j :: 0 <= j < |chain| ==> !chain[j].isPackage
    ensures 0 <= k ==> chain[k].isPackage && forall j :: 0 <= j < k ==> !chain[j].isPackage
  {
    if |chain| == 0 then -1
    else if chain[0].isPackage then 0
    else
      var k := FirstPackage(chain[1..]);
      if k == -1 then -1 else k + 1
  }

  /** findTopLevel: walks outward along the enclosing elements chain[0],
      chain[1], ... (the chain ends where getEnclosingElement is null) and
      answers the element just inside the first package, or null when the
      walk reaches null or the element is itself a package. */
  method FindTopLevel(chain: seq<Element>) returns (r: Option<Element>)
    ensures var k := FirstPackage(chain);
      r == if k <= 0 then None else Some(chain[k - 1])
  {
    var prev: Option<Element> := None;
    var i := 0;
    while i < |chain| && !chain[i].isPackage
      invariant 0 <= i <= |chain|
      invariant forall j :: 0 <= j < i ==> !chain[j].isPackage
      invariant prev == if i == 0 then None else Some(chain[i - 1])
    {
      prev := Some(chain[i]);
      i := i + 1;
    }
    if i == |chain| {
      r := None;
    } else {
      r := prev;
    }
  }

  /** The Filer's bookkeeping: the initial inputs and class names, the
      files created so far, the types created and not closed, what was closed
      in this round, the types created in every round, and the lint log. */
  class JavacFiler {
    var initialInputs: set<FileId>
    var fileObjectHistory: set<FileId>
    var openTypeNames: set<Text>
    var generatedSourceNames: set<Text>
    var generatedSourceFileObjects: set<FileId>
    var generatedClasses: map<ModuleSymbol, map<Text, FileId>>
    var aggregateGeneratedSourceNames: set<(ModuleSymbol, Text)>
    var aggregateGeneratedClassNames: set<(ModuleSymbol, Text)>
    var initialClassNames: set<Text>
    var lastRound: bool
    var log: seq<Warning>
    const lint: bool
    const modules: ModuleEnv
    /** getJavaFileForOutput, for the module's source or class output location. */
    const javaFileForOutput: (ModuleSymbol, bool, Text) -> FileObject
    /** getFileForOutput and getFileForInput for resources; the latter may find nothing. */
    const fileForOutput: (Location, ModuleSymbol, Text, Text) -> FileObject
    const fileForInput: (Location, ModuleSymbol, Text, Text) -> Option<FileObject>
    /** The source file and the class file of the type element with the given name, if any. */
    const typeSourceFile: Text -> Option<FileId>
    const typeClassFile: Text -> Option<FileId>

    constructor (lint: bool, modules: ModuleEnv,
                 javaFileForOutput: (ModuleSymbol, bool, Text) -> FileObject,
                 fileForOutput: (Location, ModuleSymbol, Text, Text) -> FileObject,
                 fileForInput: (Location, ModuleSymbol, Text, Text) -> Option<FileObject>,
                 typeSourceFile: Text -> Option<FileId>, typeClassFile: Text -> Option<FileId>)
      ensures RoundClear() && CrossRoundClear() && initialInputs == {} && initialClassNames == {}
      ensures !lastRound && log == []
      ensures this.lint == lint && this.modules == modules
      ensures this.javaFileForOutput == javaFileForOutput
      ensures this.fileForOutput == fileForOutput && this.fileForInput == fileForInput
      ensures this.typeSourceFile == typeSourceFile && this.typeClassFile == typeClassFile
    {
      initialInputs := {};
      fileObjectHistory := {};
      openTypeNames := {};
      generatedSourceNames := {};
      generatedSourceFileObjects := {};
      generatedClasses := map[];
      aggregateGeneratedSourceNames := {};
      aggregateGeneratedClassNames := {};
      initialClassNames := {};
      lastRound := false;
      log := [];
      this.lint := lint;
      this.modules := modules;
      this.javaFileForOutput := javaFileForOutput;
      this.fileForOutput := fileForOutput;
      this.fileForInput := fileForInput;
      this.typeSourceFile := typeSourceFile;
      this.typeClassFile := typeClassFile;
    }

    /** The state one round collects is empty. */
    ghost predicate RoundClear()
      reads this
    {
      generatedSourceNames == {} && generatedSourceFileObjects == {} && generatedClasses == map[]
    }

    /** The state kept across rounds is empty. */
    ghost predicate CrossRoundClear()
      reads this
    {
      fileObjectHistory == {} && openTypeNames == {}
      && aggregateGeneratedSourceNames == {} && aggregateGeneratedClassNames == {}
    }

    /** newFiles: some source or class file was closed in this round. */
    function NewFiles(): bool
      reads this
    {
      generatedSourceNames != {} || generatedClasses != map[]
    }

    /** The type of the given name was already created in the module, is an
        initial class, or its type element comes from an initial input. */
    ghost predicate AlreadySeen(mod: ModuleSymbol, typename: Text)
      reads this
    {
      (mod, typename) in aggregateGeneratedSourceNames
      || (mod, typename) in aggregateGeneratedClassNames
      || typename in initialClassNames
      || (typeSourceFile(typename).Some? && typeSourceFile(typename).value in initialInputs)
    }

    /** The file is an initial input or the source or class file of an
        initial class (both only when writing), or was created before. */
    ghost predicate InHistory(file: FileObject, forWriting: bool)
      reads this
    {
      (forWriting && file.id in initialInputs)
      || (forWriting && exists c :: c in initialClassNames && InitialClassFile(c, file))
      || file.id in fileObjectHistory
    }

    ghost predicate InitialClassFile(c: Text, file: FileObject) {
      typeSourceFile(c) == Some(file.id) || typeClassFile(c) == Some(file.id)
    }

    /** checkName: refuses a name that is neither a valid name nor a
        package-info name, with a lint warning. */
    method CheckName(name: Text, allowUnnamedPackageInfo: bool) returns (r: Result<(), FilerError>)
      modifies this`log
      ensures r.Failure? <==> !NameAcceptable(name, allowUnnamedPackageInfo)
      ensures r.Failure? ==>
        r.error == FilerException("Illegal name " + name)
        && log == old(log) + (if lint then [Warning("proc.illegal.file.name", [name])] else [])
      ensures r.Success? ==> log == old(log)
    {
      if !IsName(name) && !IsPackageInfo(name, allowUnnamedPackageInfo) {
        if lint {
          log := log + [Warning("proc.illegal.file.name", [name])];
        }
        return Failure(FilerException("Illegal name " + name));
      }
      return Success(());
    }

    /** checkNameAndExistence: the name must be acceptable, the type not
        seen before, and a named module cannot get a type in the unnamed package. */
    method CheckNameAndExistence(mod: ModuleSymbol, typename: Text, allowUnnamedPackageInfo: bool)
      returns (r: Result<(), FilerError>)
      modifies this`log
      ensures r.Success? <==>
        NameAcceptable(typename, allowUnnamedPackageInfo) && !AlreadySeen(mod, typename)
        && (mod.unnamed || '.' in typename)
      ensures !NameAcceptable(typename, allowUnnamedPackageInfo) ==>
        r == Failure(FilerException("Illegal name " + typename))
        && log == old(log) + (if lint then [Warning("proc.illegal.file.name", [typename])] else [])
      ensures NameAcceptable(typename, allowUnnamedPackageInfo) && AlreadySeen(mod, typename) ==>
        r == Failure(FilerException("Attempt to recreate a file for type " + typename))
        && log == old(log) + (if lint then [Warning("proc.type.recreate", [typename])] else [])
      ensures NameAcceptable(typename, allowUnnamedPackageInfo) && !AlreadySeen(mod, typename) ==>
        log == old(log)
      ensures (NameAcceptable(typename, allowUnnamedPackageInfo) && !AlreadySeen(mod, typename)
               && !mod.unnamed && '.' !in typename) ==>
        r == Failure(FilerException("Attempt to create a type in unnamed package of a named module: " + typename))
    {
      r := CheckName(typename, allowUnnamedPackageInfo);
      if r.Failure? {
        return;
      }
      var existing := typeSourceFile(typename);
      var alreadySeen := (mod, typename) in aggregateGeneratedSourceNames
        || (mod, typename) in aggregateGeneratedClassNames
        || typename in initialClassNames
        || (existing.Some? && existing.value in initialInputs);
      if alreadySeen {
        if lint {
          log := log + [Warning("proc.type.recreate", [typename])];
        }
        return Failure(FilerException("Attempt to recreate a file for type " + typename));
      }
      if !mod.unnamed && '.' !in typename {
        return Failure(FilerException("Attempt to create a type in unnamed package of a named module: " + typename));
      }
    }

    /** isInFileObjectHistory: searches the initial inputs and the files of
        the initial classes (when writing), then the files created before. */
    method IsInFileObjectHistory(file: FileObject, forWriting: bool) returns (b: bool)
      ensures b <==> InHistory(file, forWriting)
    {
      if forWriting {
        var veterans := initialInputs;
        while veterans != {}
          invariant veterans <= initialInputs
          invariant file.id !in initialInputs - veterans
          decreases |veterans|
        {
          var veteran :| veteran in veterans;
          if veteran == file.id {
            return true;
          }
          veterans := veterans - {veteran};
        }
        assert initialInputs - veterans == initialInputs;
        var classNames := initialClassNames;
        while classNames != {}
          invariant classNames <= initialClassNames
          invariant forall c :: c in initialClassNames - classNames ==> !InitialClassFile(c, file)
          decreases |classNames|
        {
          var className :| className in classNames;
          var sourcefile := typeSourceFile(className);
          var classfile := typeClassFile(className);
          if (sourcefile.Some? && sourcefile.value == file.id) || (classfile.Some? && classfile.value == file.id) {
            assert InitialClassFile(className, file);
            return true;
          }
          classNames := classNames - {className};
        }
        assert initialClassNames - classNames == initialClassNames;
      }
      var history := fileObjectHistory;
      while history != {}
        invariant history <= fileObjectHistory
        invariant file.id !in fileObjectHistory - history
        decreases |history|
      {
        var veteran :| veteran in history;
        if veteran == file.id {
          return true;
        }
        history := history - {veteran};
      }
      assert fileObjectHistory - history == fileObjectHistory;
      return false;
    }

    /** checkFileReopening: refuses a file already in the history, with a
        lint warning; otherwise a write records the file, a read does not. */
    method CheckFileReopening(file: FileObject, forWriting: bool) returns (r: Result<(), FilerError>)
      modifies this`log, this`fileObjectHistory
      ensures r.Failure? <==> old(InHistory(file, forWriting))
      ensures r.Failure? ==>
        r.error == FilerException("Attempt to reopen a file for path " + file.name)
        && fileObjectHistory == old(fileObjectHistory)
        && log == old(log) + (if lint then [Warning("proc.file.reopening", [file.name])] else [])
      ensures r.Success? ==>
        log == old(log) && fileObjectHistory == old(fileObjectHistory) + (if forWriting then {file.id} else {})
    {
      var seen := IsInFileObjectHistory(file, forWriting);
      if seen {
        if lint {
          log := log + [Warning("proc.file.reopening", [file.name])];
        }
        return Failure(FilerException("Attempt to reopen a file for path " + file.name));
      }
      if forWriting {
        fileObjectHistory := fileObjectHistory + {file.id};
      }
      return Success(());
    }

    /** A file just recorded by a write is refused by every later check. */
    lemma RecordedFileIsRefused(file: FileObject, forWriting: bool)
      requires file.id in fileObjectHistory
      ensures InHistory(file, forWriting)
    {
    }

    /** createSourceOrClassFile: checks the name and the type's existence,
        gets the output file, refuses to reopen it, warns in the last round,
        and records the type as created and open. */
    method CreateSourceOrClassFile(mod: ModuleSymbol, isSourceFile: bool, name: Text)
      returns (r: Result<FilerOutputFileObject, FilerError>)
      modifies this`log, this`fileObjectHistory, this`openTypeNames
      modifies this`aggregateGeneratedSourceNames, this`aggregateGeneratedClassNames
      ensures var file := javaFileForOutput(mod, isSourceFile, name);
        r.Success? <==>
          NameAcceptable(name, isSourceFile) && old(!AlreadySeen(mod, name))
          && (mod.unnamed || '.' in name) && old(!InHistory(file, true))
      ensures r.Failure? ==>
        fileObjectHistory == old(fileObjectHistory) && openTypeNames == old(openTypeNames)
        && aggregateGeneratedSourceNames == old(aggregateGeneratedSourceNames)
        && aggregateGeneratedClassNames == old(aggregateGeneratedClassNames)
      ensures r.Success? ==>
        var file := javaFileForOutput(mod, isSourceFile, name);
        fresh(r.value) && r.value.filer == this && r.value.mod == mod && r.value.name == Some(name)
        && r.value.file == file && !r.value.hasBeenOpened
        && fileObjectHistory == old(fileObjectHistory) + {file.id}
        && openTypeNames == old(openTypeNames) + {name}
        && aggregateGeneratedSourceNames == old(aggregateGeneratedSourceNames) + (if isSourceFile then {(mod, name)} else {})
        && aggregateGeneratedClassNames == old(aggregateGeneratedClassNames) + (if isSourceFile then {} else {(mod, name)})
        && log == old(log)
             + (if lint && SuspiciousExtension(name, isSourceFile).Some?
                then [Warning("proc.suspicious.class.name", [name, SuspiciousExtension(name, isSourceFile).value])] else [])
             + (if lastRound then [Warning("proc.file.create.last.round", [name])] else [])
    {
      WarnIfSuspicious(name, isSourceFile);
      var checked := CheckNameAndExistence(mod, name, isSourceFile);
      if checked.Failure? {
        return Failure(checked.error);
      }
      var fileObject := javaFileForOutput(mod, isSourceFile, name);
      var reopening := CheckFileReopening(fileObject, true);
      if reopening.Failure? {
        return Failure(reopening.error);
      }
      RecordCreated(mod, isSourceFile, name);
      var wrapper := new FilerOutputFileObject(this, mod, Some(name), fileObject);
      return Success(wrapper);
    }

    /** The lint warning about a name ending in the file's extension. */
    method WarnIfSuspicious(name: Text, isSourceFile: bool)
      modifies this`log
      ensures log == old(log)
        + (if lint && SuspiciousExtension(name, isSourceFile).Some?
           then [Warning("proc.suspicious.class.name", [name, SuspiciousExtension(name, isSourceFile).value])] else [])
    {
      if lint {
        var extn := SuspiciousExtension(name, isSourceFile);
        if extn.Some? {
          log := log + [Warning("proc.suspicious.class.name", [name, extn.value])];
        }
      }
    }

    /** The end of a successful create: the last-round warning, and the type
        recorded as created and open. */
    method RecordCreated(mod: ModuleSymbol, isSourceFile: bool, name: Text)
      modifies this`log, this`aggregateGeneratedSourceNames, this`aggregateGeneratedClassNames, this`openTypeNames
      ensures openTypeNames == old(openTypeNames) + {name}
      ensures aggregateGeneratedSourceNames == old(aggregateGeneratedSourceNames) + (if isSourceFile then {(mod, name)} else {})
      ensures aggregateGeneratedClassNames == old(aggregateGeneratedClassNames) + (if isSourceFile then {} else {(mod, name)})
      ensures log == old(log) + (if lastRound then [Warning("proc.file.create.last.round", [name])] else [])
    {
      if lastRound {
        log := log + [Warning("proc.file.create.last.round", [name])];
      }
      if isSourceFile {
        aggregateGeneratedSourceNames := aggregateGeneratedSourceNames + {(mod, name)};
      } else {
        aggregateGeneratedClassNames := aggregateGeneratedClassNames + {(mod, name)};
      }
      openTypeNames := openTypeNames + {name};
    }

    /** A type created in a module can never be created there again. */
    lemma CreatedTypeIsSeen(mod: ModuleSymbol, name: Text)
      requires (mod, name) in aggregateGeneratedSourceNames || (mod, name) in aggregateGeneratedClassNames
      ensures AlreadySeen(mod, name)
    {
    }

    /** createSourceFile and createClassFile: the module is checked or
        inferred from the name first. */
    method CreateSourceOrClassFileNamed(nameAndModule: Text, isSourceFile: bool)
      returns (r: Result<FilerOutputFileObject, FilerError>)
      modifies this`log, this`fileObjectHistory, this`openTypeNames
      modifies this`aggregateGeneratedSourceNames, this`aggregateGeneratedClassNames
      ensures CheckOrInferModule(modules, nameAndModule).Failure? ==>
        r == Failure(CheckOrInferModule(modules, nameAndModule).error) && unchanged(this)
      ensures CheckOrInferModule(modules, nameAndModule).Success? ==>
        var (mod, name) := CheckOrInferModule(modules, nameAndModule).value;
        r.Success? <==>
          NameAcceptable(name, isSourceFile) && old(!AlreadySeen(mod, name))
          && (mod.unnamed || '.' in name) && old(!InHistory(javaFileForOutput(mod, isSourceFile, name), true))
      ensures r.Failure? ==>
        fileObjectHistory == old(fileObjectHistory) && openTypeNames == old(openTypeNames)
        && aggregateGeneratedSourceNames == old(aggregateGeneratedSourceNames)
        && aggregateGeneratedClassNames == old(aggregateGeneratedClassNames)
      ensures r.Success? ==>
        CheckOrInferModule(modules, nameAndModule).Success?
        && var (mod, name) := CheckOrInferModule(modules, nameAndModule).value;
        var file := javaFileForOutput(mod, isSourceFile, name);
        fresh(r.value) && r.value.filer == this && r.value.mod == mod && r.value.name == Some(name)
        && r.value.file == file && !r.value.hasBeenOpened
        && fileObjectHistory == old(fileObjectHistory) + {file.id}
        && openTypeNames == old(openTypeNames) + {name}
        && aggregateGeneratedSourceNames == old(aggregateGeneratedSourceNames) + (if isSourceFile then {(mod, name)} else {})
        && aggregateGeneratedClassNames == old(aggregateGeneratedClassNames) + (if isSourceFile then {} else {(mod, name)})
        && log == old(log)
             + (if lint && SuspiciousExtension(name, isSourceFile).Some?
                then [Warning("proc.suspicious.class.name", [name, SuspiciousExtension(name, isSourceFile).value])] else [])
             + (if lastRound then [Warning("proc.file.create.last.round", [name])] else [])
    {
      var moduleAndClass := CheckOrInferModule(modules, nameAndModule);
      if moduleAndClass.Failure? {
        return Failure(moduleAndClass.error);
      }
      r := CreateSourceOrClassFile(moduleAndClass.value.0, isSourceFile, moduleAndClass.value.1);
    }

    /** createResource: checks the module, the location and the package
        name, gets the output file and refuses to reopen it; the wrapper
        has no type name. */
    method CreateResource(location: Location, moduleAndPkg: Text, relativeName: Text)
      returns (r: Result<FilerOutputFileObject, FilerError>)
      modifies this`log, this`fileObjectHistory
      ensures r.Success? <==>
        CheckOrInferModule(modules, moduleAndPkg).Success?
        && LocationCheck(location).Success?
        && (var pkg := CheckOrInferModule(modules, moduleAndPkg).value.1;
            (|pkg| == 0 || NameAcceptable(pkg, false))
            && old(!InHistory(fileForOutput(location, CheckOrInferModule(modules, moduleAndPkg).value.0, pkg, relativeName), true)))
      ensures r.Success? ==>
        var (msym, pkg) := CheckOrInferModule(modules, moduleAndPkg).value;
        var file := fileForOutput(location, msym, pkg, relativeName);
        fresh(r.value) && r.value.filer == this && r.value.mod == msym && r.value.name == None
        && r.value.file == file && !r.value.hasBeenOpened
        && fileObjectHistory == old(fileObjectHistory) + {file.id}
      ensures r.Failure? ==> fileObjectHistory == old(fileObjectHistory)
    {
      var moduleAndPackage := CheckOrInferModule(modules, moduleAndPkg);
      if moduleAndPackage.Failure? {
        return Failure(moduleAndPackage.error);
      }
      var (msym, pkg) := moduleAndPackage.value;
      var checked := LocationCheck(location);
      if checked.Failure? {
        return Failure(checked.error);
      }
      if |pkg| > 0 {
        var named := CheckName(pkg, false);
        if named.Failure? {
          return Failure(named.error);
        }
      }
      var fileObject := fileForOutput(location, msym, pkg, relativeName);
      var reopening := CheckFileReopening(fileObject, true);
      if reopening.Failure? {
        return Failure(reopening.error);
      }
      var wrapper := new FilerOutputFileObject(this, msym, None, fileObject);
      return Success(wrapper);
    }

    /** The file getResource looks up: getFileForOutput in an output
        location, getFileForInput, which may find nothing, in any other. */
    function FileForResource(location: Location, msym: ModuleSymbol, pkg: Text, relativeName: Text): (r: Option<FileObject>)
      reads this
    {
      if location.isOutput then Some(fileForOutput(location, msym, pkg, relativeName))
      else fileForInput(location, msym, pkg, relativeName)
    }

    /** getResource: checks the module and the package name, finds the file
        (FileNotFoundException when there is none) and refuses a file
        already created; reading records nothing. */
    method GetResource(location: Location, moduleAndPkg: Text, relativeName: Text)
      returns (r: Result<FileObject, FilerError>)
      modifies this`log, this`fileObjectHistory
      ensures fileObjectHistory == old(fileObjectHistory)
      ensures r.Success? <==>
        CheckOrInferModule(modules, moduleAndPkg).Success?
        && (var (msym, pkg) := CheckOrInferModule(modules, moduleAndPkg).value;
            (|pkg| == 0 || NameAcceptable(pkg, false))
            && FileForResource(location, msym, pkg, relativeName).Some?
            && !InHistory(FileForResource(location, msym, pkg, relativeName).value, false))
      ensures r.Success? ==>
        var (msym, pkg) := CheckOrInferModule(modules, moduleAndPkg).value;
        r.value == FileForResource(location, msym, pkg, relativeName).value
      ensures CheckOrInferModule(modules, moduleAndPkg).Success? ==>
        var (msym, pkg) := CheckOrInferModule(modules, moduleAndPkg).value;
        (|pkg| == 0 || NameAcceptable(pkg, false)) && FileForResource(location, msym, pkg, relativeName).None? ==>
          r == Failure(FileNotFound(if |pkg| == 0 then relativeName else pkg + "/" + relativeName))
    {
      var moduleAndPackage := CheckOrInferModule(modules, moduleAndPkg);
      if moduleAndPackage.Failure? {
        return Failure(moduleAndPackage.error);
      }
      var (msym, pkg) := moduleAndPackage.value;
      if |pkg| > 0 {
        var named := CheckName(pkg, false);
        if named.Failure? {
          return Failure(named.error);
        }
      }
      var found := FileForResource(location, msym, pkg, relativeName);
      if found.None? {
        return Failure(FileNotFound(if |pkg| == 0 then relativeName else pkg + "/" + relativeName));
      }
      var reopening := CheckFileReopening(found.value, false);
      if reopening.Failure? {
        return Failure(reopening.error);
      }
      return Success(found.value);
    }

    /** closeFileObject: a closed source file of a type joins this round's
        source names and files, a class file joins this round's classes of
        its module; either way the type is no longer open.  A resource (no
        type name) changes nothing. */
    method CloseFileObject(mod: ModuleSymbol, typeName: Option<Text>, file: FileObject)
      returns (r: Result<(), FilerError>)
      modifies this`generatedSourceNames, this`generatedSourceFileObjects, this`generatedClasses, this`openTypeNames
      ensures typeName.Some? && file.kind == PlainFile <==> r == Failure(AssertionFailure)
      ensures typeName.Some? && file.kind == SourceFile ==>
        generatedSourceNames == old(generatedSourceNames) + {typeName.value}
        && generatedSourceFileObjects == old(generatedSourceFileObjects) + {file.id}
        && generatedClasses == old(generatedClasses)
        && openTypeNames == old(openTypeNames) - {typeName.value}
      ensures typeName.Some? && file.kind == ClassFile ==>
        generatedSourceNames == old(generatedSourceNames)
        && generatedSourceFileObjects == old(generatedSourceFileObjects)
        && generatedClasses == old(generatedClasses)[mod :=
             (if mod in old(generatedClasses) then old(generatedClasses)[mod] else map[])[typeName.value := file.id]]
        && openTypeNames == old(openTypeNames) - {typeName.value}
      ensures typeName.None? || file.kind == OtherJavaFile || file.kind == PlainFile ==>
        unchanged(this)
      ensures typeName.Some? && (file.kind == SourceFile || file.kind == ClassFile) ==> NewFiles()
    {
      r := Success(());
      if typeName.Some? {
        var t := typeName.value;
        match file.kind
        case PlainFile =>
          return Failure(AssertionFailure);
        case SourceFile =>
          generatedSourceNames := generatedSourceNames + {t};
          generatedSourceFileObjects := generatedSourceFileObjects + {file.id};
          openTypeNames := openTypeNames - {t};
        case ClassFile =>
          var perModule := if mod in generatedClasses then generatedClasses[mod] else map[];
          generatedClasses := generatedClasses[mod := perModule[t := file.id]];
          assert mod in generatedClasses;
          openTypeNames := openTypeNames - {t};
        case OtherJavaFile =>
      }
    }

    /** warnIfUnclosedFiles: one warning exactly when some type file is still open. */
    method WarnIfUnclosedFiles()
      modifies this`log
      ensures log == old(log) + if openTypeNames != {} then [Warning("proc.unclosed.type.files", [])] else []
    {
      if openTypeNames != {} {
        log := log + [Warning("proc.unclosed.type.files", [])];
      }
    }

    /** newRound: clears the state of the round only. */
    method NewRound()
      modifies this
      ensures RoundClear() && !NewFiles()
      ensures initialInputs == old(initialInputs) && initialClassNames == old(initialClassNames)
      ensures fileObjectHistory == old(fileObjectHistory) && openTypeNames == old(openTypeNames)
      ensures aggregateGeneratedSourceNames == old(aggregateGeneratedSourceNames)
      ensures aggregateGeneratedClassNames == old(aggregateGeneratedClassNames)
      ensures lastRound == old(lastRound) && log == old(log)
    {
      ClearRoundState();
    }

    method SetLastRound(lastRound: bool)
      modifies this`lastRound
      ensures this.lastRound == lastRound
    {
      this.lastRound := lastRound;
    }

    /** setInitialState: adds to the initial inputs and class names. */
    method SetInitialState(inputs: set<FileId>, classNames: set<Text>)
      modifies this`initialInputs, this`initialClassNames
      ensures initialInputs == old(initialInputs) + inputs
      ensures initialClassNames == old(initialClassNames) + classNames
    {
      initialInputs := initialInputs + inputs;
      initialClassNames := initialClassNames + classNames;
    }

    /** close: clears the round state and all cross-round state. */
    method Close()
      modifies this
      ensures RoundClear() && CrossRoundClear() && initialInputs == {} && initialClassNames == {}
      ensures lastRound == old(lastRound) && log == old(log)
    {
      ClearRoundState();
      initialClassNames := {};
      initialInputs := {};
      fileObjectHistory := {};
      openTypeNames := {};
      aggregateGeneratedSourceNames := {};
      aggregateGeneratedClassNames := {};
    }

    method ClearRoundState()
      modifies this`generatedSourceNames, this`generatedSourceFileObjects, this`generatedClasses
      ensures RoundClear()
    {
      generatedSourceNames := {};
      generatedSourceFileObjects := {};
      generatedClasses := map[];
    }
  }

  /** FilerOutputFileObject: an output file whose stream or writer can be
      opened once; it cannot be read or deleted. */
  class FilerOutputFileObject {
    var hasBeenOpened: bool
    const filer: JavacFiler
    const mod: ModuleSymbol
    /** The type name, or None for a resource. */
    const name: Option<Text>
    const file: FileObject

    constructor (filer: JavacFiler, mod: ModuleSymbol, name: Option<Text>, file: FileObject)
      ensures this.filer == filer && this.mod == mod && this.name == name && this.file == file
      ensures !hasBeenOpened
    {
      this.filer := filer;
      this.mod := mod;
      this.name := name;
      this.file := file;
      hasBeenOpened := false;
    }

    /** openOutputStream and openWriter: the first call opens the file and
        answers a fresh, unclosed wrapper; any later one fails. */
    method Open(isWriter: bool) returns (r: Result<FilerStream, FilerError>)
      modifies this`hasBeenOpened
      ensures hasBeenOpened
      ensures old(hasBeenOpened) <==> r == Failure(IOFailure(AlreadyOpened))
      ensures r.Success? ==>
        fresh(r.value) && !r.value.closed && r.value.isWriter == isWriter && r.value.filer == filer
        && r.value.mod == mod && r.value.typeName == name && r.value.file == file
    {
      if hasBeenOpened {
        return Failure(IOFailure(AlreadyOpened));
      }
      hasBeenOpened := true;
      var stream := new FilerStream(filer, mod, name, file, isWriter);
      return Success(stream);
    }

    /** openInputStream, openReader and getCharContent always fail. */
    function Read(): (r: Result<Text, FilerError>)
      ensures r == Failure(IllegalState(NotForReading))
    {
      Failure(IllegalState(NotForReading))
    }

    function Delete(): (deleted: bool)
      ensures !deleted
    {
      false
    }
  }

  /** FilerInputFileObject: openOutputStream and openWriter always fail. */
  function OpenInputForWriting(file: FileObject): (r: Result<(), FilerError>)
    ensures r == Failure(IllegalState(NotForWriting))
  {
    Failure(IllegalState(NotForWriting))
  }

  /** FilerOutputStream and FilerWriter (alike but for what they wrap):
      close registers the file with the Filer once, however often it is
      called. */
  class FilerStream {
    var closed: bool
    const filer: JavacFiler
    const mod: ModuleSymbol
    const typeName: Option<Text>
    const file: FileObject
    const isWriter: bool

    constructor (filer: JavacFiler, mod: ModuleSymbol, typeName: Option<Text>, file: FileObject, isWriter: bool)
      ensures this.filer == filer && this.mod == mod && this.typeName == typeName
      ensures this.file == file && this.isWriter == isWriter && !closed
    {
      this.filer := filer;
      this.mod := mod;
      this.typeName := typeName;
      this.file := file;
      this.isWriter := isWriter;
      closed := false;
    }

    method Close() returns (r: Result<(), FilerError>)
      modifies this`closed, filer`generatedSourceNames, filer`generatedSourceFileObjects, filer`generatedClasses,
        filer`openTypeNames
      ensures closed
      ensures old(closed) ==> r == Success(()) && unchanged(filer)
      ensures !old(closed) ==> (r == Failure(AssertionFailure) <==> typeName.Some? && file.kind == PlainFile)
      ensures !old(closed) && typeName.Some? && file.kind == SourceFile ==>
        filer.generatedSourceNames == old(filer.generatedSourceNames) + {typeName.value}
        && filer.generatedSourceFileObjects == old(filer.generatedSourceFileObjects) + {file.id}
        && filer.generatedClasses == old(filer.generatedClasses)
        && filer.openTypeNames == old(filer.openTypeNames) - {typeName.value}
      ensures !old(closed) && typeName.Some? && file.kind == ClassFile ==>
        filer.generatedSourceNames == old(filer.generatedSourceNames)
        && filer.generatedSourceFileObjects == old(filer.generatedSourceFileObjects)
        && filer.generatedClasses == old(filer.generatedClasses)[mod :=
             (if mod in old(filer.generatedClasses) then old(filer.generatedClasses)[mod] else map[])[typeName.value := file.id]]
        && filer.openTypeNames == old(filer.openTypeNames) - {typeName.value}
      ensures !old(closed) && (typeName.None? || file.kind == OtherJavaFile || file.kind == PlainFile) ==> unchanged(filer)
    {
      r := Success(());
      if !closed {
        closed := true;
        r := filer.CloseFileObject(mod, typeName, file);
      }
    }
  }
}

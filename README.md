# A verified model of five components of nb-javac

This project models, in Dafny, five self-contained parts of nb-javac, the javac fork that NetBeans uses for editing. It states what each part promises and proves it.

- **Member entry** (`MemberEnter.java`). The second phase of class entry. It covers:
  - the import clauses of a compilation unit: on-demand, static on-demand, static named and named imports, with the walk of the supertype and interface graph;
  - the two-phase completion protocol: the `halfcompleted` queue and the `isFirst` and `completionEnabled` guards;
  - the synthesized default constructor, super call and implicit enum members;
  - method signatures and the error-tolerant `isSameMethod`;
  - the duplicate-annotation and `@Deprecated` bookkeeping;
  - the placeholder type parameters of classes synthesized for missing types.
- **Error repair** (`Repair.java`). The phase that turns code with errors into code that can be generated:
  - a flagged statement becomes `throw new RuntimeException("Uncompilable source code - ...")`;
  - blocks and cases are cut after their first throw;
  - methods of erroneous classes are tainted;
  - class-level errors go into a static initializer;
  - missing methods are synthesized;
  - superclasses are repaired first, under a memo that `flush` clears.
- **The Filer** (`JavacFiler.java`) of annotation processing:
  - name validation and `module/name` splitting;
  - the rules that every type and every file is created at most once;
  - the open-once and close-once output wrappers;
  - the per-round and cross-round state.
- **The processing environment** (`JavacProcessingEnvironment.java`):
  - `-Akey=value` options;
  - supported-annotation strings and their patterns;
  - option names;
  - the cached-then-lazy processor-state iterator;
  - the comma-separated processor-name iterator;
  - the round's matching loop with unmatched-option tracking;
  - the root class and package-info lists;
  - `close`.
- **Diagnostics** (`JCDiagnostic.java`): the immutable diagnostic value, its factory, key qualification, kind mapping, the constructor's position and source check, line and column defaulting, and simple positions.

External collaborators are parameters or constant fields of the model:
- attribution, `Types`, the class hierarchy, `Resolve`, the file manager, the element utilities, the class loader, and processor code.

Pure code is functions on datatypes, and code that updates fields is classes with methods:
- the import walk, the completer, the annotated symbol, the filer and its file objects, the processor iterators and the processing environment.

Each method is proved against a specification function or states its new state outright, and the lemmas beside it prove the properties. Every file is a single module. Modules whose names share a prefix (`Member*`, `Repair*`, `Processing*`) model one source file together.

`JavacFiler.java` comes from the module-aware source tree. `JavacProcessingEnvironment.java` comes from an older one, whose call `filer.newRound(context, lastRound)` no longer matches the Filer. The two are modelled standalone.

## Model

| member | source | states |
|---|---|---|
| Diagnostics.SimplePositionSpans | src/share/classes/com/sun/tools/javac/util/JCDiagnostic.java:241-260 | a simple position has no tree, and its start, preferred and end positions are all its one offset, whatever the end position table |
| Diagnostics.Create | src/share/classes/com/sun/tools/javac/util/JCDiagnostic.java:284-309 | construction fails with IllegalArgumentException exactly when there is no source but a position other than NOPOS; otherwise every field is as given, and line and column are -1 without a position or source and read from the source otherwise |
| Diagnostics.SourcelessDiagnosticUnlocated | src/share/classes/com/sun/tools/javac/util/JCDiagnostic.java:291-308 | a diagnostic built without a source has position NOPOS and line and column -1 |
| Diagnostics.QualifyRoundTrip | src/share/classes/com/sun/tools/javac/util/JCDiagnostic.java:158-160 | the qualified key "prefix.typekey.key" parses back into the diagnostic type and the bare key |
| Diagnostics.QualifyInjective | src/share/classes/com/sun/tools/javac/util/JCDiagnostic.java:158-160 | distinct (type, key) pairs qualify to distinct codes under one prefix |
| Diagnostics.Error | src/share/classes/com/sun/tools/javac/util/JCDiagnostic.java:88-91 | an error is mandatory, of type ERROR, and its code unqualifies to (ERROR, key) |
| Diagnostics.MandatoryWarning | src/share/classes/com/sun/tools/javac/util/JCDiagnostic.java:101-104 | a mandatory warning is mandatory, of type WARNING, and its code unqualifies to (WARNING, key) |
| Diagnostics.Warning | src/share/classes/com/sun/tools/javac/util/JCDiagnostic.java:113-116 | a warning is not mandatory, of type WARNING, and its code unqualifies to (WARNING, key) |
| Diagnostics.MandatoryNote | src/share/classes/com/sun/tools/javac/util/JCDiagnostic.java:124-126 | a mandatory note never fails, has no position, and so has line and column -1 |
| Diagnostics.Note | src/share/classes/com/sun/tools/javac/util/JCDiagnostic.java:144-147 | a note is not mandatory, of type NOTE, and its code unqualifies to (NOTE, key) |
| Diagnostics.PlainNote | src/share/classes/com/sun/tools/javac/util/JCDiagnostic.java:133-135 | the note without source and position never fails |
| Diagnostics.Fragment | src/share/classes/com/sun/tools/javac/util/JCDiagnostic.java:154-156 | a fragment never fails and has no source, no position, and line and column -1 |
| Diagnostics.StaticFragment | src/share/classes/com/sun/tools/javac/util/JCDiagnostic.java:171-179 | the static fragment, with its key spelt out by hand, is the fragment of the default "compiler" factory |
| Diagnostics.GetKind | src/share/classes/com/sun/tools/javac/util/JCDiagnostic.java:463-475 | the kind maps back to the diagnostic type, and it is MANDATORY_WARNING or WARNING exactly for mandatory or non-mandatory warnings |
| Diagnostics.GetPrefix | src/share/classes/com/sun/tools/javac/util/JCDiagnostic.java:419-428 | the prefix is empty exactly for fragments; every other type gets the localized key "compiler.<type key>.<noun>" of the type |
| Diagnostics.GetEndPositionAsWritten | src/share/classes/com/sun/tools/javac/util/JCDiagnostic.java:363-365 | as written, the end position fails exactly for a positioned diagnostic without a source |
| Diagnostics.EndPositionAsWrittenFails | src/share/classes/com/sun/tools/javac/util/JCDiagnostic.java:363-365 | a warning with no source and a NOPOS position is constructed, and its end position then fails |
| Diagnostics.GetEndPosition | src/share/classes/com/sun/tools/javac/util/JCDiagnostic.java:363-377 | the corrected end position agrees with the as-written one whenever that succeeds, and is NOPOS for a well-formed diagnostic without a source |
| Diagnostics.PositionGetters | src/share/classes/com/sun/tools/javac/util/JCDiagnostic.java:355-381 | without a position, start, preferred and end position are NOPOS and there is no tree; with a simple position all three are its offset |
| Diagnostics.HasFixedPositions | src/share/classes/com/sun/tools/javac/util/JCDiagnostic.java:486-488 | it fails exactly when there is no position, and is otherwise true exactly when there is no tree |
| Filer.CheckOrInferModule | src/jdk.compiler/share/classes/com/sun/tools/javac/processing/JavacFiler.java:429-455 | with a slash, success exactly when the module named before the first slash exists and is a root module, with the rest as the name, and "does not exist" when it is unknown; without a slash, failure exactly in multi-module mode, and the default module otherwise |
| Filer.CheckOrInferModuleSplits | src/jdk.compiler/share/classes/com/sun/tools/javac/processing/JavacFiler.java:429-447 | a slash-free module name joined to any name by "/" splits back into that module and that name |
| Filer.LastSegmentPackageInfo | src/jdk.compiler/share/classes/com/sun/tools/javac/processing/JavacFiler.java:638-651 | the text after the last period is "package-info" exactly when the name ends in ".package-info" |
| Filer.IsPackageInfo | src/jdk.compiler/share/classes/com/sun/tools/javac/processing/JavacFiler.java:638-651 | a package-info name is "package-info" itself when that is allowed, or a valid name followed by ".package-info" |
| Filer.PackageInfoOfName | src/jdk.compiler/share/classes/com/sun/tools/javac/processing/JavacFiler.java:638-651 | every valid name followed by ".package-info" is a package-info name |
| Filer.PackageInfoIsNotName | src/jdk.compiler/share/classes/com/sun/tools/javac/processing/JavacFiler.java:630-651 | no package-info name is a valid name, so the two cases of checkName never overlap |
| Filer.LocationCheck | src/jdk.compiler/share/classes/com/sun/tools/javac/processing/JavacFiler.java:546-553 | resource creation fails exactly for a standard location that is not an output location, with the location named in the message |
| Filer.SuspiciousExtension | src/jdk.compiler/share/classes/com/sun/tools/javac/processing/JavacFiler.java:459-467 | the lint warning fires exactly when the name, from its last period on, is the extension of the file being created |
| Filer.SuspiciousExtensionOf | src/jdk.compiler/share/classes/com/sun/tools/javac/processing/JavacFiler.java:459-467 | a name ending in the extension of its own file kind always draws the warning |
| Filer.FirstPackage | src/jdk.compiler/share/classes/com/sun/tools/javac/processing/JavacFiler.java:569-576 | the first package in an enclosing chain, or -1 exactly when there is none |
| Filer.FindTopLevel | src/jdk.compiler/share/classes/com/sun/tools/javac/processing/JavacFiler.java:569-576 | the element just inside the first enclosing package; null when no package is reached or the element is itself a package |
| Filer.JavacFiler.constructor | src/jdk.compiler/share/classes/com/sun/tools/javac/processing/JavacFiler.java:389-413 | all round and cross-round state starts empty, with no log and not in the last round |
| Filer.JavacFiler.CheckName | src/jdk.compiler/share/classes/com/sun/tools/javac/processing/JavacFiler.java:630-636 | it fails exactly for a name that is neither a valid name nor a package-info name, with a lint warning, and logs nothing otherwise |
| Filer.JavacFiler.CheckNameAndExistence | src/jdk.compiler/share/classes/com/sun/tools/javac/processing/JavacFiler.java:653-671 | success exactly when the name is acceptable, the type was never seen (created before, an initial class, or from an initial input), and a named module does not get a type in the unnamed package; each failure has its own message and lint warning |
| Filer.JavacFiler.IsInFileObjectHistory | src/jdk.compiler/share/classes/com/sun/tools/javac/processing/JavacFiler.java:687-719 | true exactly when writing to an initial input or to a file of an initial class, or when the file was created before |
| Filer.JavacFiler.CheckFileReopening | src/jdk.compiler/share/classes/com/sun/tools/javac/processing/JavacFiler.java:677-685 | it fails exactly for a file in the history, with a lint warning and nothing recorded; otherwise a write records the file and a read does not |
| Filer.JavacFiler.RecordedFileIsRefused | src/jdk.compiler/share/classes/com/sun/tools/javac/processing/JavacFiler.java:677-719 | a file once recorded is refused by every later reopening check, for reading and for writing |
| Filer.JavacFiler.CreateSourceOrClassFile | src/jdk.compiler/share/classes/com/sun/tools/javac/processing/JavacFiler.java:457-503 | creation succeeds exactly when the name is acceptable, the type was never seen, the package is allowed and the output file is not in the history; on success the file is wrapped, unopened, under the type's name; a failure changes no bookkeeping |
| Filer.JavacFiler.WarnIfSuspicious | src/jdk.compiler/share/classes/com/sun/tools/javac/processing/JavacFiler.java:459-467 | the lint warning about a name ending in the file's own extension is logged exactly when lint is on and the name ends so |
| Filer.JavacFiler.RecordCreated | src/jdk.compiler/share/classes/com/sun/tools/javac/processing/JavacFiler.java:493-500 | a created type becomes open and joins the source or class names it was created as, with the last-round warning when it comes in the last round |
| Filer.JavacFiler.CreatedTypeIsSeen | src/jdk.compiler/share/classes/com/sun/tools/javac/processing/JavacFiler.java:653-667 | a type once created in a module counts as seen there, so it can never be created again |
| Filer.JavacFiler.CreateSourceOrClassFileNamed | src/jdk.compiler/share/classes/com/sun/tools/javac/processing/JavacFiler.java:415-427 | a failed module check fails the creation and changes nothing; otherwise, for the module and name the check gives, the creation succeeds exactly when createSourceOrClassFile's checks pass, and then records the file and the type and logs its warnings, while a refused creation leaves the history and the generated names as they were |
| Filer.JavacFiler.CreateResource | src/jdk.compiler/share/classes/com/sun/tools/javac/processing/JavacFiler.java:505-544 | success exactly when the module check, the location check and the package name check pass and the output file is not in the history; the new file is recorded and wrapped with no type name; a failure records nothing |
| Filer.JavacFiler.GetResource | src/jdk.compiler/share/classes/com/sun/tools/javac/processing/JavacFiler.java:578-624 | success exactly when the module and package checks pass and a file is found that was not created before, where an output location is asked with getFileForOutput and any other location with getFileForInput; it answers that file, names the missing file in FileNotFoundException, and never records anything |
| Filer.JavacFiler.CloseFileObject | src/jdk.compiler/share/classes/com/sun/tools/javac/processing/JavacFiler.java:798-825 | a closed source file of a type joins this round's source names and files, a class file joins its module's generated classes, and the type is no longer open; a resource changes nothing; a type with a plain file is an assertion failure |
| Filer.JavacFiler.WarnIfUnclosedFiles | src/jdk.compiler/share/classes/com/sun/tools/javac/processing/JavacFiler.java:738-741 | one warning exactly when some type file is still open |
| Filer.JavacFiler.NewRound | src/jdk.compiler/share/classes/com/sun/tools/javac/processing/JavacFiler.java:746-748 | the round's state is cleared, and the cross-round state and the log are kept |
| Filer.JavacFiler.SetLastRound | src/jdk.compiler/share/classes/com/sun/tools/javac/processing/JavacFiler.java:750-752 | the last-round flag takes the given value |
| Filer.JavacFiler.SetInitialState | src/jdk.compiler/share/classes/com/sun/tools/javac/processing/JavacFiler.java:754-758 | the initial inputs and class names grow by the given ones |
| Filer.JavacFiler.Close | src/jdk.compiler/share/classes/com/sun/tools/javac/processing/JavacFiler.java:760-769 | the round state and every cross-round set are cleared |
| Filer.JavacFiler.ClearRoundState | src/jdk.compiler/share/classes/com/sun/tools/javac/processing/JavacFiler.java:771-775 | the generated source names, source files and classes of the round are cleared |
| Filer.FilerOutputFileObject.constructor | src/jdk.compiler/share/classes/com/sun/tools/javac/processing/JavacFiler.java:122-131 | the wrapper starts unopened, for the given module, name and file |
| Filer.FilerOutputFileObject.Open | src/jdk.compiler/share/classes/com/sun/tools/javac/processing/JavacFiler.java:133-147 | the first open gives a stream for the wrapper's module, name and file, and every later open fails with "already opened" |
| Filer.FilerOutputFileObject.Read | src/jdk.compiler/share/classes/com/sun/tools/javac/processing/JavacFiler.java:150-163 | reading an output file always fails with IllegalStateException |
| Filer.FilerOutputFileObject.Delete | src/jdk.compiler/share/classes/com/sun/tools/javac/processing/JavacFiler.java:165-168 | an output file can never be deleted |
| Filer.OpenInputForWriting | src/jdk.compiler/share/classes/com/sun/tools/javac/processing/JavacFiler.java:203-216 | writing to an input file always fails with IllegalStateException |
| Filer.FilerStream.constructor | src/jdk.compiler/share/classes/com/sun/tools/javac/processing/JavacFiler.java:259-274 | the stream starts unclosed, for the given module, type name and file |
| Filer.FilerStream.Close | src/jdk.compiler/share/classes/com/sun/tools/javac/processing/JavacFiler.java:276-287 | the first close records the file with the Filer as closeFileObject does: a source file joins the generated source names and source file objects, a class file joins its module's generated classes, either way the type is no longer open and nothing else of the Filer changes; every later close changes nothing |
| ProcessingPatterns.CheckImportString | src/share/classes/com/sun/tools/javac/processing/JavacProcessingEnvironment.java:1386-1406 | the validation accepts a string other than "*" exactly when it is a dotted name, or a dotted name followed by ".*" |
| ProcessingPatterns.NoStarValidity | src/share/classes/com/sun/tools/javac/processing/JavacProcessingEnvironment.java:1402-1406 | without a "*", a string is valid exactly when every dot-separated piece, empty ones included, is an identifier |
| ProcessingPatterns.StarLastValidity | src/share/classes/com/sun/tools/javac/processing/JavacProcessingEnvironment.java:1388-1396 | with a trailing "*", a string is valid exactly when a "." comes before the "*" and the rest is a dotted name |
| ProcessingPatterns.StarInsideInvalid | src/share/classes/com/sun/tools/javac/processing/JavacProcessingEnvironment.java:1397-1398 | a "*" anywhere but last makes the string invalid |
| ProcessingPatterns.ImportStringToPattern | src/share/classes/com/sun/tools/javac/processing/JavacProcessingEnvironment.java:1372-1420 | the pattern matches everything exactly for "*" and matches nothing exactly for an invalid string |
| ProcessingPatterns.ImportStringToPatternCorrected | src/share/classes/com/sun/tools/javac/processing/JavacProcessingEnvironment.java:1413-1419 | the corrected translation, with "$" escaped too, keeps both of those properties |
| ProcessingPatterns.TokensWithoutDollar | src/share/classes/com/sun/tools/javac/processing/JavacProcessingEnvironment.java:1413 | without a "$" the escaped and the as-written tokens coincide |
| ProcessingPatterns.CorrectedNameMatchesItself | src/share/classes/com/sun/tools/javac/processing/JavacProcessingEnvironment.java:1413-1419 | the corrected pattern of a valid dotted name matches exactly that name |
| ProcessingPatterns.CorrectedWildcardMatches | src/share/classes/com/sun/tools/javac/processing/JavacProcessingEnvironment.java:1415-1419 | the corrected pattern of "p.*" matches exactly "p." followed by at least one character that is not a line terminator |
| ProcessingPatterns.AsWrittenAgreesWithoutDollar | src/share/classes/com/sun/tools/javac/processing/JavacProcessingEnvironment.java:1413-1419 | for strings without "$" the as-written and the corrected translations are the same pattern |
| ProcessingPatterns.InvalidMatchesNothing | src/share/classes/com/sun/tools/javac/processing/JavacProcessingEnvironment.java:1408-1411 | an invalid string matches no input, in both translations |
| ProcessingPatterns.DollarAnchorCounterexample | src/share/classes/com/sun/tools/javac/processing/JavacProcessingEnvironment.java:1413-1419 | "a.b$" is valid, yet its as-written pattern rejects "a.b$" and accepts "a.b" |
| ProcessingPatterns.DollarBeforeTerminator | src/share/classes/com/sun/tools/javac/processing/JavacProcessingEnvironment.java:1413-1419 | as written, the "$" of the valid string "a$\U{0085}" matches before the final line terminator, so its pattern accepts "a\U{0085}" |
| ProcessingPatterns.ValidOptionNamesAreJoins | src/share/classes/com/sun/tools/javac/processing/JavacProcessingEnvironment.java:1435-1441 | every dot-join of identifiers is a valid option name |
| ProcessingPatterns.ValidOptionNameSplits | src/share/classes/com/sun/tools/javac/processing/JavacProcessingEnvironment.java:1435-1441 | a valid option name splits at its dots into identifiers that join back into it |
| ProcessingOptions.Put | src/share/classes/com/sun/tools/javac/processing/JavacProcessingEnvironment.java:483 | LinkedHashMap.put: the entry is set, and a new key goes last in the order while an existing one keeps its place |
| ProcessingOptions.ParseOption | src/share/classes/com/sun/tools/javac/processing/JavacProcessingEnvironment.java:471-482 | an option contributes an entry exactly when it starts with "-A" and is longer than "-A" |
| ProcessingOptions.ParseOptionRoundTrip | src/share/classes/com/sun/tools/javac/processing/JavacProcessingEnvironment.java:471-482 | "-Akey" parses to (key, null), and "-Akey=value" to (key, value), with null for an empty value |
| ProcessingOptions.ParseOptionNullKey | src/share/classes/com/sun/tools/javac/processing/JavacProcessingEnvironment.java:476-483 | an "=" right after "-A" contributes a null key with a null value |
| ProcessingOptions.OptionsOfValid | src/share/classes/com/sun/tools/javac/processing/JavacProcessingEnvironment.java:465-488 | the options map keeps its insertion order consistent with its entries |
| ProcessingOptions.OptionsOfStep | src/share/classes/com/sun/tools/javac/processing/JavacProcessingEnvironment.java:470-485 | one more option updates exactly the key it contributes and keeps every other entry |
| ProcessingOptions.OptionsOfKeys | src/share/classes/com/sun/tools/javac/processing/JavacProcessingEnvironment.java:465-488 | a key is present exactly when some option contributes it |
| ProcessingOptions.OptionsOfLastWins | src/share/classes/com/sun/tools/javac/processing/JavacProcessingEnvironment.java:465-488 | the value of a present key is the one of the last option contributing it |
| ProcessingOptions.InitProcessorOptions | src/share/classes/com/sun/tools/javac/processing/JavacProcessingEnvironment.java:465-488 | the loop builds the options map of the specification, and the map's order is consistent |
| ProcessingOptions.InitialUnmatchedOptions | src/share/classes/com/sun/tools/javac/processing/JavacProcessingEnvironment.java:490-494 | every processor-option key starts out unmatched, and nothing else does |
| ProcessingRound.ValidOptionNames | src/share/classes/com/sun/tools/javac/processing/JavacProcessingEnvironment.java:527-531 | the option names kept are exactly the supported options that are valid option names |
| ProcessingRound.MalformedWarnings | src/share/classes/com/sun/tools/javac/processing/JavacProcessingEnvironment.java:520-525 | every warning logged while translating the supported annotation types is proc.malformed.supported.string about one of those strings that is not a valid import string |
| ProcessingRound.BadOptionErrors | src/share/classes/com/sun/tools/javac/processing/JavacProcessingEnvironment.java:557-564 | every error logged while checking the supported options is proc.processor.bad.option.name about one of those names that is not a valid option name |
| ProcessingRound.MalformedWarningsInOrder | src/share/classes/com/sun/tools/javac/processing/JavacProcessingEnvironment.java:520-525 | there is exactly one malformed-string warning per malformed supported string, carrying that string, in the order of the strings |
| ProcessingRound.BadOptionErrorsInOrder | src/share/classes/com/sun/tools/javac/processing/JavacProcessingEnvironment.java:557-564 | there is exactly one bad-option-name error per invalid option name, carrying that name, in the order of the names |
| ProcessingRound.StarSupportsEverything | src/share/classes/com/sun/tools/javac/processing/JavacProcessingEnvironment.java:566-572 | a processor that supports "*" supports every name without a line terminator, including the "" placeholder |
| ProcessingRound.RemoveSupportedOptions | src/share/classes/com/sun/tools/javac/processing/JavacProcessingEnvironment.java:577-579 | the processor's supported option names are removed from the unmatched options, and every other unmatched key, including the null key, stays |
| ProcessingRound.InitialUnmatched | src/share/classes/com/sun/tools/javac/processing/JavacProcessingEnvironment.java:680-690 | the unmatched names of a round are the annotations present, seeded with "" exactly when there are none |
| ProcessingRound.StepShape | src/share/classes/com/sun/tools/javac/processing/JavacProcessingEnvironment.java:709-750 | an invalid state, or a state that matches no unmatched name and has not contributed, is skipped; otherwise the processor is called with the unmatched names it supports minus "", becomes a contributor, and the names it matched are removed exactly when it returns true |
| ProcessingRound.RunFrom | src/share/classes/com/sun/tools/javac/processing/JavacProcessingEnvironment.java:709-750 | the loop stops only when every state was visited or no name is left unmatched, and never changes how many states there are |
| ProcessingRound.RunFromAdvance | src/share/classes/com/sun/tools/javac/processing/JavacProcessingEnvironment.java:709-750 | running the loop from the next state after one turn ends where running it from the current state ends |
| ProcessingRound.RunFromExtendsCalls | src/share/classes/com/sun/tools/javac/processing/JavacProcessingEnvironment.java:709-750 | the loop only appends calls to those made before it |
| ProcessingRound.RunFromUnmatched | src/share/classes/com/sun/tools/javac/processing/JavacProcessingEnvironment.java:745-747 | after the loop a name is still unmatched exactly when no call of the loop that returned true matched it |
| ProcessingRound.RunFromCallsOk | src/share/classes/com/sun/tools/javac/processing/JavacProcessingEnvironment.java:709-736 | every call of the loop is of a valid state, passes only unmatched names the processor supports (minus ""), and happens only when it matched a name or had contributed before |
| ProcessingRound.RunFromCalledRange | src/share/classes/com/sun/tools/javac/processing/JavacProcessingEnvironment.java:709-710 | the loop only calls states from its start up to where it stopped |
| ProcessingRound.RunFromStates | src/share/classes/com/sun/tools/javac/processing/JavacProcessingEnvironment.java:735 | after the loop a state is marked contributed exactly when the loop called it, and nothing else about any state changes |
| ProcessingRound.RunFromCallsContributors | src/share/classes/com/sun/tools/javac/processing/JavacProcessingEnvironment.java:723 | a valid state that contributed in an earlier round and that the loop reaches is always called |
| ProcessingRound.ContributingFromExact | src/share/classes/com/sun/tools/javac/processing/JavacProcessingEnvironment.java:637-646 | the states runContributingProcs calls are exactly the valid contributors from the given index on |
| Processing.TranslatePatterns | src/share/classes/com/sun/tools/javac/processing/JavacProcessingEnvironment.java:520-525 | the loop over the supported annotation strings yields exactly their patterns and the malformed-string warnings, in order |
| Processing.CheckOptionNames | src/share/classes/com/sun/tools/javac/processing/JavacProcessingEnvironment.java:527-531 | the loop over the supported options keeps exactly the valid names and logs the bad-option-name errors, in order |
| ProcessingRound.PatternsAgreeWithoutDollar | src/share/classes/com/sun/tools/javac/processing/JavacProcessingEnvironment.java:1413-1419 | when no supported string contains `$`, every pattern of the processor state is the one importStringToPattern as written compiles |
| Processing.NewProcessorState | src/share/classes/com/sun/tools/javac/processing/JavacProcessingEnvironment.java:511-538 | a processor whose init fails gives an invalid state with no patterns or options and logs nothing; otherwise the state has the translated patterns and valid option names, and the log is the source-version warning (when older), the malformed-string warnings, then the bad-option-name errors |
| Processing.AnnotationSupported | src/share/classes/com/sun/tools/javac/processing/JavacProcessingEnvironment.java:566-572 | the answer is true exactly when some supported pattern matches the name |
| Processing.MatchNames | src/share/classes/com/sun/tools/javac/processing/JavacProcessingEnvironment.java:714-721 | the names matched are exactly the unmatched names the processor supports |
| Processing.DiscoveredProcessors.constructor | src/share/classes/com/sun/tools/javac/processing/JavacProcessingEnvironment.java:656-659 | no state is cached yet and every processor of the iterator is still to come |
| Processing.DiscoveredProcessors.Iterator | src/share/classes/com/sun/tools/javac/processing/JavacProcessingEnvironment.java:652-654 | a fresh iterator over this list, positioned on the first cached state |
| Processing.DiscoveredProcessors.Close | src/share/classes/com/sun/tools/javac/processing/JavacProcessingEnvironment.java:664-669 | the processor iterator is closed once exactly when it is a service-loader iterator |
| Processing.ProcessorStateIterator.constructor | src/share/classes/com/sun/tools/javac/processing/JavacProcessingEnvironment.java:598-602 | the iterator starts on the cached states, at the first one |
| Processing.ProcessorStateIterator.Next | src/share/classes/com/sun/tools/javac/processing/JavacProcessingEnvironment.java:604-619 | yields the next cached state while any remain; after that creates the state of the next processor, appends it to the cache and logs what its creation logs; with no processor left it fails with NoSuchElementException and changes nothing |
| Processing.ProcessorStateIterator.RunContributingProcs | src/share/classes/com/sun/tools/javac/processing/JavacProcessingEnvironment.java:637-646 | still on the cached states, it calls exactly the remaining valid contributors, in order, and uses up the cached states; on the processor iterator it calls nobody; the log gains exactly one proc.cant.access error for each of those calls that throws a CompletionFailure, in call order |
| ProcessingRound.ContributingLogEntries | src/share/classes/com/sun/tools/javac/processing/JavacProcessingEnvironment.java:637-646 | the contributors' calls log only proc.cant.access errors, at most one per call |
| ProcessingRound.ContributingLogFailures | src/share/classes/com/sun/tools/javac/processing/JavacProcessingEnvironment.java:637-646 | the contributors' calls log something exactly when one of them throws a CompletionFailure |
| Processing.NameProcessIterator.constructor | src/share/classes/com/sun/tools/javac/processing/JavacProcessingEnvironment.java:407-411 | the names to load are the -processor string split at commas |
| Processing.NameProcessIterator.HasNext | src/share/classes/com/sun/tools/javac/processing/JavacProcessingEnvironment.java:413-445 | true with a processor cached; false with no name left; otherwise takes the next name and caches its processor, or logs proc.processor.not.found, proc.processor.wrong.type or proc.processor.cant.instantiate about it and answers false, or fails with AnnotationProcessingError when loading crashes |
| Processing.NameProcessIterator.Next | src/share/classes/com/sun/tools/javac/processing/JavacProcessingEnvironment.java:447-454 | hands out the processor hasNext found and clears the cache; fails with NoSuchElementException exactly when hasNext answers false; the log gains exactly the load error hasNext reports for the name it loaded |
| Processing.ReverseReverse | src/share/classes/com/sun/tools/javac/processing/JavacProcessingEnvironment.java:1096 | reversing twice gives back the list, so prepending and then reversing keeps the original order |
| Processing.GetTopLevelClasses | src/share/classes/com/sun/tools/javac/processing/JavacProcessingEnvironment.java:1087-1097 | the class symbols of every class declaration, unit by unit and in declaration order, and no other definition |
| Processing.GetPackageInfoFiles | src/share/classes/com/sun/tools/javac/processing/JavacProcessingEnvironment.java:1099-1109 | the packages of exactly the package-info units, in unit order |
| Processing.VisitState | src/share/classes/com/sun/tools/javac/processing/JavacProcessingEnvironment.java:711-747 | one visit of the round loop makes the call, and leaves the unmatched names and options, that one step of the round specification does; it logs what callProcessor logs, the proc.cant.access error exactly when process throws a CompletionFailure |
| ProcessingRound.ProcessingResult | src/share/classes/com/sun/tools/javac/processing/JavacProcessingEnvironment.java:814-830 | callProcessor answers true exactly when process returned true; a thrown CompletionFailure or any other exception makes it false |
| ProcessingRound.CallProcessorLog | src/share/classes/com/sun/tools/javac/processing/JavacProcessingEnvironment.java:814-830 | callProcessor logs at most the proc.cant.access error, and logs it exactly when process throws a CompletionFailure |
| ProcessingRound.CallLogAtCounts | src/share/classes/com/sun/tools/javac/processing/JavacProcessingEnvironment.java:814-830 | the calls made at one turn log one error for each of them that throws a CompletionFailure |
| ProcessingRound.CallLogAtEntries | src/share/classes/com/sun/tools/javac/processing/JavacProcessingEnvironment.java:814-830 | the calls made at one turn log nothing but proc.cant.access errors |
| Processing.ProcessingEnvironment.constructor | src/share/classes/com/sun/tools/javac/processing/JavacProcessingEnvironment.java:184-185 | the processor options are those parsed from the -A options, all of them still unmatched, with an empty log and a fresh list of discovered processors |
| Processing.ProcessingEnvironment.WarnIfUnmatchedOptions | src/share/classes/com/sun/tools/javac/processing/JavacProcessingEnvironment.java:1032-1036 | one proc.unmatched.processor.options warning exactly when some processor option is unmatched, and nothing otherwise |
| Processing.ProcessingEnvironment.Close | src/share/classes/com/sun/tools/javac/processing/JavacProcessingEnvironment.java:1076-1085 | the filer is always closed; when dropping processors the discovered processors are closed if still there and then forgotten, and a closeable class loader is closed, so a second close does not close them again |
| Processing.ProcessingEnvironment.FetchState | src/share/classes/com/sun/tools/javac/processing/JavacProcessingEnvironment.java:709-710 | each turn of the loop gets from the iterator the state at the next index of the round, cached or newly created |
| Processing.ProcessingEnvironment.RoundTurn | src/share/classes/com/sun/tools/javac/processing/JavacProcessingEnvironment.java:709-750 | one turn of the loop advances the environment exactly as one step of the round specification |
| Processing.ProcessingEnvironment.ProgressHasNext | src/share/classes/com/sun/tools/javac/processing/JavacProcessingEnvironment.java:709 | the iterator has a next state exactly when the round has states left to visit |
| Processing.ProcessingEnvironment.RoundLoop | src/share/classes/com/sun/tools/javac/processing/JavacProcessingEnvironment.java:709-750 | the loop, run while names are unmatched and processors remain, ends in the state the round specification reaches from its start, with the cache, processors left and log kept in step |
| Processing.ProcessingEnvironment.MatchAnnotations | src/share/classes/com/sun/tools/javac/processing/JavacProcessingEnvironment.java:709-750 | the loop makes exactly the calls of the round specification started on the cached states followed by the states of the remaining processors; the unmatched names and options, the cache, the processors left and the log are those of the run up to where it stopped; the log gains, turn by turn, what creating each new state logs and the proc.cant.access error of each call that throws a CompletionFailure |
| ProcessingRound.RoundLogFetch | src/share/classes/com/sun/tools/javac/processing/JavacProcessingEnvironment.java:709-750 | before its call, a turn adds to the round's log only what creating its state logged |
| ProcessingRound.RoundLogCall | src/share/classes/com/sun/tools/javac/processing/JavacProcessingEnvironment.java:709-750 | the call of a turn adds to the round's log exactly what callProcessor logged |
| ProcessingRound.RoundLogWithoutFailures | src/share/classes/com/sun/tools/javac/processing/JavacProcessingEnvironment.java:709-750 | when no call throws a CompletionFailure, the turns on cached states log nothing and the round logs exactly the creation messages of its new states, in order |
| Processing.ProcessingEnvironment.DiscoverAndRunProcs | src/share/classes/com/sun/tools/javac/processing/JavacProcessingEnvironment.java:672-769 | a whole round: seeded with "" when no annotation is present, the loop's calls and final state are those of the round specification, the annotations left unclaimed exclude "", the remaining contributors are called only when the loop stopped inside the cache, and the lint warning about annotations without processors is logged exactly when lint is on and a non-platform annotation is unclaimed; the log gains the loop's entries, then that warning, then the errors of the contributors' calls |
| RepairTrees.CutAfterFirstThrow | src/share/classes/com/sun/tools/javac/comp/Repair.java:239-246 | the statements kept are a prefix of the list with no throw before its end, and either the whole list or ending in a throw |
| RepairTrees.CutKeepsThrowOnlyLast | src/share/classes/com/sun/tools/javac/comp/Repair.java:239-246 | a list with no throw before its last statement is kept whole |
| RepairTrees.CutIdempotent | src/share/classes/com/sun/tools/javac/comp/Repair.java:239-246 | cutting a statement list a second time changes nothing |
| RepairTrees.CutAt | src/share/classes/com/sun/tools/javac/comp/Repair.java:239-246 | with the first throw at index k, exactly the statements up to and including k are kept |
| RepairTrees.ErrText | src/share/classes/com/sun/tools/javac/comp/Repair.java:329 | the literal always starts with "Uncompilable source code" |
| RepairTrees.MessageRoundTrip | src/share/classes/com/sun/tools/javac/comp/Repair.java:329 | the diagnostic's message, or its absence, can be read back from the literal |
| RepairTrees.ErrStat | src/share/classes/com/sun/tools/javac/comp/Repair.java:324-343 | the error statement is a throw of a new java.lang.RuntimeException (named by its identifier, with no enclosing instance and no class body), with the message literal as its one argument when the String constructor resolves and with no argument when only the no-argument one does |
| RepairTrees.ErrStatCarriesMessage | src/share/classes/com/sun/tools/javac/comp/Repair.java:329-333 | the throw built with the String constructor carries the diagnostic's message |
| RepairTrees.ErrStatReadsBack | src/share/classes/com/sun/tools/javac/comp/Repair.java:324-343 | rebuilding the error statement from the message it carries gives the same statement |
| RepairTrees.ErrExpr | src/share/classes/com/sun/tools/javac/comp/Repair.java:345-350 | an erroneous expression of the error type holding exactly the error statement |
| RepairTrees.ErrStaticInit | src/share/classes/com/sun/tools/javac/comp/Repair.java:352-355 | a static block holding exactly the error statement |
| RepairTrees.ErrMethod | src/share/classes/com/sun/tools/javac/comp/Repair.java:357-360 | a definition of the given method symbol whose body is exactly the error statement without message or position |
| RepairTrees.ClearBounds | src/share/classes/com/sun/tools/javac/comp/Repair.java:169-178 | clearing erroneous bounds keeps every node's kind, position and diagnostic |
| RepairTrees.GeneratedThrowIsFlagged | src/share/classes/com/sun/tools/javac/comp/Repair.java:263-272 | the generated instance creation has no constructor type, so translating it again always raises the error flag |
| RepairTrees.CleanFlatUnchanged | src/share/classes/com/sun/tools/javac/comp/Repair.java:122-178 | an expression tree with no diagnostic, erroneous type, own error or erroneous bound raises no flag and keeps its bounds |
| RepairTrees.CleanFlatListUnchanged | src/share/classes/com/sun/tools/javac/comp/Repair.java:122-178 | the same for a list of expression trees |
| RepairTrees.MissingMethods | src/share/classes/com/sun/tools/javac/comp/Repair.java:419-427 | a member method gets a synthesized definition exactly when it is not abstract, not the class initializer, not defined in the class's tree, and not an enum's values() or valueOf(String) |
| RepairTrees.PrependErrMethodsDefines | src/share/classes/com/sun/tools/javac/comp/Repair.java:458-469 | after prepending, every listed method has a definition, and the original definitions follow the synthesized ones unchanged |
| RepairTrees.ErrClassStats | src/share/classes/com/sun/tools/javac/comp/Repair.java:210-218 | in an erroneous class a method body keeps at most its first statement, and keeps it exactly when it is a constructor's this(..) or super(..) call with a symbol whose owner is not java.lang.Enum |
| RepairTraversal.Tr | src/share/classes/com/sun/tools/javac/comp/Repair.java:122-157 | translation never changes the phase's memo, parent stack, environment or tree maker; a block keeps its identity and staticness, and every block and case comes out with no statement after a throw |
| RepairTraversal.Replace | src/share/classes/com/sun/tools/javac/comp/Repair.java:140-156 | a flagged statement that may be replaced (not a case, and a class or variable definition only directly inside a block or case) becomes the throw with the current diagnostic's message, or a block whose only statement is that throw, and the flag and diagnostic are cleared; anything else is returned unchanged; without a usable constructor it is MissingPlatformError |
| RepairTraversal.Vis | src/share/classes/com/sun/tools/javac/comp/Repair.java:160-322 | visiting keeps the node's kind, position and diagnostic, the erroneous-class mark and a static initializer already found |
| RepairTraversal.VisDeclaration | src/share/classes/com/sun/tools/javac/comp/Repair.java:180-233 | visiting a variable, class or method definition keeps its kind, position and diagnostic |
| RepairTraversal.VisStatement | src/share/classes/com/sun/tools/javac/comp/Repair.java:236-248 | visiting a statement keeps its kind; a block keeps its identity and ends with no statement after a throw |
| RepairTraversal.VisCase | src/share/classes/com/sun/tools/javac/comp/Repair.java:305-316 | a case keeps its position and its statements end with no statement after a throw |
| RepairTraversal.VisExpression | src/share/classes/com/sun/tools/javac/comp/Repair.java:160-178 | visiting an expression or import keeps its kind, position and diagnostic; an invocation (method expression, then arguments), an instance creation (enclosing instance, class, arguments, anonymous body) and an operator expression translate their children in that order, after their own missing or erroneous symbol has raised the flag |
| RepairTraversal.TrList | src/share/classes/com/sun/tools/javac/comp/Repair.java:122 | a list translates to a list of the same length |
| RepairTraversal.TrOpt | src/share/classes/com/sun/tools/javac/comp/Repair.java:123-124 | a missing tree stays missing, and a present one stays present |
| RepairTraversal.TrBody | src/share/classes/com/sun/tools/javac/comp/Repair.java:208 | a method body stays present exactly when it was |
| RepairTraversal.TrStats | src/share/classes/com/sun/tools/javac/comp/Repair.java:239-246 | the translated statements have no statement after a throw |
| RepairTraversal.VisBlock | src/share/classes/com/sun/tools/javac/comp/Repair.java:236-248 | a block keeps its identity, position and staticness, loses the statements after its first throw, and is recorded as the static initializer when it is the first static block |
| RepairTraversal.VisVarDef | src/share/classes/com/sun/tools/javac/comp/Repair.java:187-197 | a variable definition stays one at the same position, with its modifiers and declared type translated before its initializer; a field never leaves the flag set |
| RepairTraversal.ErrClassBody | src/share/classes/com/sun/tools/javac/comp/Repair.java:210-218 | outside an erroneous class the body is untouched; inside one it keeps only what ErrClassStats keeps |
| RepairTraversal.VisMethodDef | src/share/classes/com/sun/tools/javac/comp/Repair.java:200-233 | a method definition stays one, with the same position and name |
| RepairTraversal.TrMethodParts | src/share/classes/com/sun/tools/javac/comp/Repair.java:201-219 | the parts are translated in the order modifiers, result type and type parameters, parameters, thrown types, default value, body; the method keeps its symbol, position, name and the number of each kind of part; its body disappears only in an erroneous class |
| RepairTraversal.TaintMethod | src/share/classes/com/sun/tools/javac/comp/Repair.java:220-232 | a flagged method, unless the flag comes from a duplicate definition, loses ABSTRACT, NATIVE and its default value, and its body (made if missing) becomes exactly the error statement, with the flag and diagnostic cleared; otherwise it is untouched |
| RepairTraversal.TrClass | src/share/classes/com/sun/tools/javac/comp/Repair.java:362-379 | the flag, diagnostic, static initializer and class-level error around the translation are unchanged, and the class and its superclass end up in the memo when they have environments |
| RepairTraversal.RepairOne | src/share/classes/com/sun/tools/javac/comp/Repair.java:379-483 | the repaired class is in the memo, the saved fields are restored, and every member method that needed a synthesized definition has a definition |
| RepairTraversal.RepairClass | src/share/classes/com/sun/tools/javac/comp/Repair.java:397-470 | the class tree keeps its position, and every member method that needed a synthesized definition has a definition |
| RepairTraversal.ClassLevelError | src/share/classes/com/sun/tools/javac/comp/Repair.java:406-417 | without a flag, the class's own diagnostic becomes the current one and marks the class erroneous; a flagged diagnostic is the class-level error; otherwise an erroneous class takes the diagnostic pending outside it; otherwise the class-level error is unchanged |
| RepairTraversal.TrImports | src/share/classes/com/sun/tools/javac/comp/Repair.java:392-396 | translating the imports keeps the memo, parent stack, environment and tree maker |
| RepairTraversal.TrMembers | src/share/classes/com/sun/tools/javac/comp/Repair.java:424-451 | the member loop never adds definitions |
| RepairTraversal.AddClassLevelInit | src/share/classes/com/sun/tools/javac/comp/Repair.java:452-457 | the first static initializer's statements become the class-level error's throw, or a static block holding it is prepended |
| RepairTraversal.AddErrMethods | src/share/classes/com/sun/tools/javac/comp/Repair.java:458-469 | every listed method gets a synthesized definition in front of the unchanged original definitions; without a usable constructor it is MissingPlatformError |
| RepairTraversal.TrTopLevel | src/share/classes/com/sun/tools/javac/comp/Repair.java:485-496 | the environment and tree maker are cleared and the parent stack is empty afterwards, and the result is MissingPlatformError exactly when no RuntimeException constructor resolves and one was needed |
| RepairProperties.TrFlat | src/share/classes/com/sun/tools/javac/comp/Repair.java:122-178 | translating an expression tree changes only the flag and current diagnostic, clears erroneous bounds, keeps a pending diagnostic, and leaves the flag set exactly when it was set or some node reports an error |
| RepairProperties.TrFlatFresh | src/share/classes/com/sun/tools/javac/comp/Repair.java:127-131 | with the flag clear, the flag is set after the translation exactly when some node of the tree reports an error |
| RepairProperties.VisFlat | src/share/classes/com/sun/tools/javac/comp/Repair.java:251-322 | visiting an expression tree raises the flag exactly when it was set, the node has its own error, or a child raises it |
| RepairProperties.VisFlatImport | src/share/classes/com/sun/tools/javac/comp/Repair.java:160-166 | an import raises the flag exactly when its name does, and a flagged diagnostic becomes the class-level error |
| RepairProperties.VisFlatNode | src/share/classes/com/sun/tools/javac/comp/Repair.java:251-302 | an invocation, instance creation or operator expression raises the flag exactly when it has its own error or a child raises it |
| RepairProperties.TrListFlat | src/share/classes/com/sun/tools/javac/comp/Repair.java:122-178 | a list of expression trees raises the flag exactly when it was set or some element reports an error |
| RepairProperties.FlaggedNodeRaises | src/share/classes/com/sun/tools/javac/comp/Repair.java:251-322 | an invocation or instance creation with a null symbol or a null or erroneous type, an operator expression without an operator, a type parameter with an erroneous bound, or an erroneous node always raises the flag |
| RepairProperties.TrClean | src/share/classes/com/sun/tools/javac/comp/Repair.java:122-157 | a tree without errors is returned unchanged, and at most the first static initializer is recorded |
| RepairProperties.VisClean | src/share/classes/com/sun/tools/javac/comp/Repair.java:160-322 | the same for the visit of a tree without errors |
| RepairProperties.VisStatementClean | src/share/classes/com/sun/tools/javac/comp/Repair.java:236-248 | the same for a statement |
| RepairProperties.VisExpressionClean | src/share/classes/com/sun/tools/javac/comp/Repair.java:251-322 | the same for an expression |
| RepairProperties.VisBlockClean | src/share/classes/com/sun/tools/javac/comp/Repair.java:236-248 | the same for a block |
| RepairProperties.VisVarDefClean | src/share/classes/com/sun/tools/javac/comp/Repair.java:187-197 | the same for a variable definition |
| RepairProperties.VisMethodDefClean | src/share/classes/com/sun/tools/javac/comp/Repair.java:200-233 | the same for a method definition |
| RepairProperties.TrMethodPartsClean | src/share/classes/com/sun/tools/javac/comp/Repair.java:201-219 | the same for the parts of a method |
| RepairProperties.TrListClean | src/share/classes/com/sun/tools/javac/comp/Repair.java:122 | the same for a list of trees |
| RepairProperties.TrOptClean | src/share/classes/com/sun/tools/javac/comp/Repair.java:123-124 | the same for an optional tree |
| RepairProperties.TrBodyClean | src/share/classes/com/sun/tools/javac/comp/Repair.java:208 | the same for a method body |
| RepairProperties.TrStatsClean | src/share/classes/com/sun/tools/javac/comp/Repair.java:239-246 | the same for a statement list |
| RepairMemo.ChainRepairedGrows | src/share/classes/com/sun/tools/javac/comp/Repair.java:369-379 | a larger memo still covers a repaired superclass chain |
| RepairMemo.TrClassMemoized | src/share/classes/com/sun/tools/javac/comp/Repair.java:365-372 | translating a class whose whole superclass chain is in the memo changes nothing |
| RepairMemo.TrClassRepairsChain | src/share/classes/com/sun/tools/javac/comp/Repair.java:362-379 | unless MissingPlatformError is thrown, translating a class puts every class of its superclass chain that has an environment in the memo |
| RepairMemo.TrClassIdempotent | src/share/classes/com/sun/tools/javac/comp/Repair.java:362-379 | translating a class twice is translating it once |
| Repair.Repairer.constructor | src/share/classes/com/sun/tools/javac/comp/Repair.java:106-119 | nothing is repaired yet, and there is no flag, diagnostic, parent, environment or tree maker |
| Repair.Repairer.TranslateTopLevelClass | src/share/classes/com/sun/tools/javac/comp/Repair.java:485-496 | the result and every field are those of the translation specification, with the environment and tree maker cleared, and the memo only grows |
| Repair.Repairer.Flush | src/share/classes/com/sun/tools/javac/comp/Repair.java:498-500 | the memo of repaired classes is emptied and nothing else changes |
| MemberSymbols.ClosedHoldsPath | src/share/classes/com/sun/tools/javac/comp/MemberEnter.java:184-207 | a set of types closed under supertypes and interfaces that holds the start of a walk of the hierarchy holds every type of the walk |
| MemberSymbols.StaticImportAccessible | src/share/classes/com/sun/tools/javac/comp/MemberEnter.java:246-258 | a private symbol is never accessible, a package-private or protected one exactly inside its own package, and a public one, or one with any other mix of access flags, always |
| MemberImports.ImportWalk.constructor | src/share/classes/com/sun/tools/javac/comp/MemberEnter.java:184-185 | a walk that has processed no type and entered nothing yet |
| MemberImports.ImportWalk.ImportFrom | src/share/classes/com/sun/tools/javac/comp/MemberEnter.java:186-198 | a type not yet processed is processed, with its supertype and interfaces, and the scope only grows; every entry added is one the walk is after, once for an on-demand import |
| MemberImports.ImportWalk.Mark | src/share/classes/com/sun/tools/javac/comp/MemberEnter.java:187 | the type joins the processed set |
| MemberImports.ImportWalk.Finish | src/share/classes/com/sun/tools/javac/comp/MemberEnter.java:198-207 | the walk of the type is over, and for a named static import it counts as a hit exactly when the type has an importable member with the name |
| MemberImports.ImportWalk.WalkSupertypes | src/share/classes/com/sun/tools/javac/comp/MemberEnter.java:191-193 | the supertype of the type is processed, and so are its interfaces |
| MemberImports.ImportWalk.WalkInterfaces | src/share/classes/com/sun/tools/javac/comp/MemberEnter.java:194-195 | every interface of the type is processed |
| MemberImports.ImportWalk.EnterMembers | src/share/classes/com/sun/tools/javac/comp/MemberEnter.java:198-206 | every member of the type that the walk must enter is in the scope afterwards, and the answer says whether some member with the name was importable |
| MemberImports.ImportWalk.Run | src/share/classes/com/sun/tools/javac/comp/MemberEnter.java:184-208 | the processed types are exactly those reachable from the imported type along supertypes and interfaces, hence finitely many and each once, even in a cyclic or diamond hierarchy |
| MemberImports.RunWalk | src/share/classes/com/sun/tools/javac/comp/MemberEnter.java:184-208 | the walk from a type only grows the scope, with entries of the hierarchy the walk is after (without duplicates for an on-demand import), leaves every wanted member of every reachable type in scope, and for a named import reports a match exactly when some reachable type has one |
| MemberImports.ImportStaticAll | src/share/classes/com/sun/tools/javac/comp/MemberEnter.java:175-243 | the star import scope is extended without duplicates by static accessible members of the imported type only, and afterwards holds every such member of every type reachable from it |
| MemberImports.ImportNamedStatic | src/share/classes/com/sun/tools/javac/comp/MemberEnter.java:267-353 | importing from a non-type logs static.imp.only.classes.and.interfaces and enters nothing; otherwise only static accessible members with the name are entered, every such method of every reachable type ends up in the scope, and cant.resolve.location is logged exactly once when no reachable type declares one |
| MemberImports.StarImportAll | src/share/classes/com/sun/tools/javac/comp/MemberEnter.java:167 | the types among the members are added to the scope, nothing else is, and no entry is added twice |
| MemberImports.ImportAll | src/share/classes/com/sun/tools/javac/comp/MemberEnter.java:149-168 | a missing java.lang ends the import, as CompletionFailure when missing java.lang is ignored and as MissingPlatformError otherwise; any other missing package logs doesnt.exist and its members are still imported |
| MemberImports.ImportNamed | src/share/classes/com/sun/tools/javac/comp/MemberEnter.java:360-364 | the symbol is entered, at the end, exactly when it is a type or erroneous and the uniqueness check accepts it |
| MemberImports.PathExtends | src/share/classes/com/sun/tools/javac/comp/MemberEnter.java:191-195 | a walk followed by a supertype or interface of its last type is a walk |
| MemberUnit.ImportedGrows | src/share/classes/com/sun/tools/javac/comp/MemberEnter.java:167-243 | once a clause's members are in the scopes they stay there as the scopes grow |
| MemberUnit.CompilationUnit.constructor | src/share/classes/com/sun/tools/javac/comp/MemberEnter.java:544 | a unit with empty import scopes and nothing logged |
| MemberUnit.CompilationUnit.VisitImport | src/share/classes/com/sun/tools/javac/comp/MemberEnter.java:576-603 | the clause is dispatched to the import it makes; only an on-demand import of a missing java.lang fails, leaving scopes and log as they were; otherwise what the clause imports is in the scopes and the log gains exactly the clause's entries (doesnt.exist, static.imp.only.classes.and.interfaces or cant.resolve.location); a single-type import extends the named scope as importNamed does, and a scope the clause does not import into stays as it was |
| MemberUnit.ClauseLog | src/share/classes/com/sun/tools/javac/comp/MemberEnter.java:576-603 | memberEnter of one clause logs at most one entry, and nothing for a clause that makes it throw MissingPlatformError |
| MemberUnit.CompilationUnit.ImportOnDemand | src/share/classes/com/sun/tools/javac/comp/MemberEnter.java:585-591 | the star import scope and log are exactly what importAll computes and reports |
| MemberUnit.CompilationUnit.ImportStaticOnDemand | src/share/classes/com/sun/tools/javac/comp/MemberEnter.java:588-589 | the star import scope grows by importable members only and afterwards holds every static member that the import reaches |
| MemberUnit.CompilationUnit.ImportStaticNamed | src/share/classes/com/sun/tools/javac/comp/MemberEnter.java:594-596 | the named import scope and log are as importNamedStatic promises |
| MemberUnit.CompilationUnit.MemberEnter | src/share/classes/com/sun/tools/javac/comp/MemberEnter.java:420-430 | a completion failure is caught and reported, so only MissingPlatformError from an on-demand import gets through; a missing java.lang, when it is to be ignored, leaves the star scope as it was and logs exactly the completion error; otherwise what the clause imports is in the scopes; the log gains exactly the clause's entries, and a single-type import extends the named scope as importNamed does |
| MemberUnit.CompilationUnit.VisitTopLevel | src/share/classes/com/sun/tools/javac/comp/MemberEnter.java:544-573 | a unit whose star import scope is not empty is left exactly as it is; otherwise java.lang is imported on demand first, which fills the star import scope when java.lang has a type, and then every clause's imports are in the scopes; the log gains the entries of the java.lang import and then those of each clause in order; a failure after java.lang comes from a clause that makes memberEnter throw, with the entries of the clauses before it logged |
| MemberUnit.CompilationUnit.EnterDefs | src/share/classes/com/sun/tools/javac/comp/MemberEnter.java:434-437 | every tree is entered in order; after success each clause's imports are in the scopes and the log gains the entries of every clause in order; a failure is MissingPlatformError from a clause that makes memberEnter throw, with exactly the entries of the clauses before it logged |
| MemberUnit.CompilationUnit.EnterTopLevel | src/share/classes/com/sun/tools/javac/comp/MemberEnter.java:420-430 | processing the unit only ever fails with MissingPlatformError, and a unit already processed is unchanged |
| MemberCompletion.Completer.constructor | src/share/classes/com/sun/tools/javac/comp/MemberEnter.java:128-139 | completion is on, no completion is under way, the queue of half-completed classes is empty and every class has its completer installed |
| MemberCompletion.Completer.CompleteSymbol | src/share/classes/com/sun/tools/javac/comp/MemberEnter.java:1089-1096 | a class without an installed completer is left alone; otherwise its completer is used up and it is queued once, so completions cannot recur without end |
| MemberCompletion.Completer.Complete | src/share/classes/com/sun/tools/javac/comp/MemberEnter.java:1088-1302 | with completion off the completer is put back and nothing else changes; otherwise the class is queued and flagged UNATTRIBUTED; a BreakAttr empties the queue and ends the completion; the outermost completion finishes every class queued meanwhile, first in first out, and ends with the queue empty |
| MemberCompletion.Completer.CompleteAll | src/share/classes/com/sun/tools/javac/comp/MemberEnter.java:1123-1177 | the classes are completed in order; unless attribution breaks off, the queue has gained exactly the classes queued meanwhile and no class is finished yet |
| MemberCompletion.Completer.Drain | src/share/classes/com/sun/tools/javac/comp/MemberEnter.java:1294-1301 | the queued classes, and those queued while they are finished, are finished in the order they were queued, until the queue is empty |
| MemberCompletion.Completer.Finish | src/share/classes/com/sun/tools/javac/comp/MemberEnter.java:1333-1341 | the class's members are entered after those of the classes already finished |
| MemberCompletion.Completer.AttribImportType | src/share/classes/com/sun/tools/javac/comp/MemberEnter.java:943-953 | with completion switched off for the attribution, nothing is completed, queued or finished, and completion is on again afterwards |
| MemberTypes.IsSameMethod | src/share/classes/com/sun/tools/javac/comp/MemberEnter.java:624-653 | only two method types, or two generic method types, of the same kind can be the same method |
| MemberTypes.SameParamsPairwise | src/share/classes/com/sun/tools/javac/comp/MemberEnter.java:636-642 | the parameter loop holds exactly when both lists have the same length and are pairwise the same, an erroneous type matching any type of its name |
| MemberTypes.SameBoundsPairwise | src/share/classes/com/sun/tools/javac/comp/MemberEnter.java:605-617 | the bounds loop holds exactly when both lists have the same length and the bounds are pairwise the same after renaming the type variables |
| MemberTypes.MethodTypesSame | src/share/classes/com/sun/tools/javac/comp/MemberEnter.java:624-645 | two method types are the same method exactly when they have as many parameters, pairwise the same, and the same result type, whatever they throw |
| MemberTypes.IsSameMethodReflexive | src/share/classes/com/sun/tools/javac/comp/MemberEnter.java:605-653 | with a reflexive type comparison, every method type and generic method type is the same method as itself |
| MemberTypes.ThrownTypes | src/share/classes/com/sun/tools/javac/comp/MemberEnter.java:395-401 | each thrown type is kept when it is a type variable and checked as a class type otherwise, position by position |
| MemberTypes.Signature | src/share/classes/com/sun/tools/javac/comp/MemberEnter.java:374-407 | the result is a method type over the given parameter types, with void for a missing result type, and it is generic over the type parameters exactly when there are some |
| MemberTypes.SignatureSameMethod | src/share/classes/com/sun/tools/javac/comp/MemberEnter.java:624-653 | two signatures of one declaration are the same method however the thrown types were checked |
| MemberSynthesis.Params | src/share/classes/com/sun/tools/javac/comp/MemberEnter.java:1503 | one parameter per argument type, with that type, named x0, x1, ... |
| MemberSynthesis.ParamsDistinct | src/share/classes/com/sun/tools/javac/comp/MemberEnter.java:1503 | the synthesized parameters have pairwise distinct names |
| MemberSynthesis.Idents | src/share/classes/com/sun/tools/javac/comp/MemberEnter.java:1554 | one identifier per parameter, naming it, in order |
| MemberSynthesis.SuperCall | src/share/classes/com/sun/tools/javac/comp/MemberEnter.java:1542-1555 | a call whose type arguments are the type parameters exactly when there are some |
| MemberSynthesis.SuperCallForwards | src/share/classes/com/sun/tools/javac/comp/MemberEnter.java:1546-1554 | the call invokes super, selected from the first parameter exactly when it is based, and passes every parameter once in order |
| MemberSynthesis.ConstructorFlags | src/share/classes/com/sun/tools/javac/comp/MemberEnter.java:1507-1514 | a true enum's constructor is private whatever access was asked for; any other class's gets the access asked for and the class's; it is always generated, anonymous exactly for an anonymous class or when asked, and no other flag changes |
| MemberSynthesis.DefaultConstructor | src/share/classes/com/sun/tools/javac/comp/MemberEnter.java:1496-1524 | an <init> without result type with the given type parameters and thrown types, parameters x0 to xn, whose body calls the superclass constructor exactly when the class is neither erroneous nor Object |
| MemberSynthesis.ImplicitConstructor | src/share/classes/com/sun/tools/javac/comp/MemberEnter.java:1223-1252 | a default constructor is added exactly to a class that is no interface and declares none, unless it is anonymous with an erroneous superclass constructor; an anonymous class's forwards the outer instance and the superclass constructor's parameters, type arguments, thrown types and variable arity; any other class's takes nothing |
| MemberSynthesis.EnumMembers | src/share/classes/com/sun/tools/javac/comp/MemberEnter.java:453-541 | values and valueOf always, and ordinal, name and compareTo in bootstrap mode, with their flags, result and parameter types |
| MemberSynthesis.EnumMembersShape | src/share/classes/com/sun/tools/javac/comp/MemberEnter.java:453-541 | the implicit enum members are public, have distinct names, and exactly values and valueOf are static |
| MemberSynthesis.FinishClassMembers | src/share/classes/com/sun/tools/javac/comp/MemberEnter.java:441-447 | the implicit enum members are added exactly to an enum whose supertype is no enum and whose symbol was not read from a class file |
| MemberSynthesis.SynthesizeTyparams | src/share/classes/com/sun/tools/javac/comp/MemberEnter.java:1457-1469 | the names are T for one type parameter and T1 to Tn in order otherwise, prepended from Tn down |
| MemberSynthesis.TyparamNamesDistinct | src/share/classes/com/sun/tools/javac/comp/MemberEnter.java:1457-1469 | there are n names, each an identifier, pairwise distinct |
| MemberAnnotations.HasDeprecatedAnnotation | src/share/classes/com/sun/tools/javac/comp/MemberEnter.java:997-1004 | true exactly when some annotation has java.lang.Deprecated itself as its type and no arguments |
| MemberAnnotations.GroupKeys | src/share/classes/com/sun/tools/javac/comp/MemberEnter.java:1020-1032 | the annotated types are listed once each, exactly those that occur, each with at least one compound |
| MemberAnnotations.GroupRepeated | src/share/classes/com/sun/tools/javac/comp/MemberEnter.java:1022-1026 | with repeated annotations allowed nothing is reported and each type maps to all its compounds in order |
| MemberAnnotations.GroupUnrepeated | src/share/classes/com/sun/tools/javac/comp/MemberEnter.java:1022-1029 | without repeated annotations each type keeps its first compound |
| MemberAnnotations.GroupDuplicates | src/share/classes/com/sun/tools/javac/comp/MemberEnter.java:1026-1029 | without repeated annotations every annotation of a type already seen is reported as a duplicate, and reports and types together account for every entered annotation |
| MemberAnnotations.GroupDeprecated | src/share/classes/com/sun/tools/javac/comp/MemberEnter.java:1033-1039 | DEPRECATED is set exactly when some annotation's compound is java.lang.Deprecated, not erroneous, on a symbol whose owner is no method |
| MemberAnnotations.AnnotatedSymbol.constructor | src/share/classes/com/sun/tools/javac/comp/MemberEnter.java:960-962 | a symbol with nothing queued and nothing logged |
| MemberAnnotations.AnnotatedSymbol.AnnotateLater | src/share/classes/com/sun/tools/javac/comp/MemberEnter.java:960-991 | no annotations change nothing; otherwise an annotator is queued and the annotations become pending, except on a package not cleaned by annotation processing |
| MemberAnnotations.AnnotatedSymbol.RunAnnotator | src/share/classes/com/sun/tools/javac/comp/MemberEnter.java:976-987 | the first queued annotator runs: annotations arriving for a symbol that has some already are reported, and then entered |
| MemberAnnotations.AnnotatedSymbol.EnterAnnotations | src/share/classes/com/sun/tools/javac/comp/MemberEnter.java:1007-1048 | the symbol's annotations become the grouping by type in order of first appearance, the duplicates are logged, and DEPRECATED is added exactly when the grouping deprecates |

## Left out

General:
- Message text, localization and formatting are not modelled. A log entry is its message key (with the argument that tells entries apart, where one matters), and diagnostic arguments are uninterpreted handles.
- Source positions are carried only as the position of a tree node, which the error statements of the repair use. `TreeMaker.at`, the `DiagnosticPosition` of logged errors and `log.useSource` are not modelled.
- Concurrency is not modelled: the `synchronized` methods of the Filer; the model is single-threaded.
- Every entry of `LOGGER` (java.util.logging) is left out, because it only reports.

Member entry (`MemberEnter.java`):
- Attribution is given as oracles: `attr.attribType`, `attribBase`, `Types.isSameType`, `Types.subst`, `Check.checkClassType`, `Types.supertype` and `Types.interfaces`.
- `chk.checkUniqueImport` and `chk.checkUniqueStaticImport` are given as oracles.
- A scope is a list of symbol ids that entries are appended to, so `Scope.importAll` only adds the importable entries; shadowing and scope filters are not modelled.
- `visitTopLevel` leaves out `checkCanonical`, the package clash check, `annotateLater` on the package annotations and the missing-package error types of `modelMissingTypes`.
- MemberImports.ImportStaticAll and MemberImports.ImportNamedStatic: the `annotate.earlier` deferral of the walk over non-type members is left out, in both static imports (MemberEnter.java:211-242 for the on-demand form). Each such walk runs right after its types walk, so its order relative to other deferred work, and against a scope that later entries may have changed, is not modelled.
- `complete` leaves out:
  - the attribution of type parameters, supertype and interfaces, which is reduced to the classes it completes (`baseTriggers`);
  - the `this` and `super` symbols, the `AUXILIARY` flag and `annotate.flush`;
  - the catch of `CompletionFailure` by `chk.completionError`;
  - a `BreakAttr` thrown while `finish` enters a class's members, which would leave `halfcompleted` non-empty with `isFirst` still true: only a `BreakAttr` from the attribution of the base clauses (`breaks`) is modelled;
  - the `todo` queue of classes to attribute: a top-level class's environment is appended to it, after being removed first when the class is `APT_CLEANED` (MemberEnter.java:1114-1120).
- `finishClass` enters every member through `memberEnter` (`visitMethodDef`, `visitVarDef`), which is given only by the classes it completes (`memberTriggers`). The reconciliation of members read from class files (`APT_CLEANED`, `treeLoader.couplingError`) is left out.
- `signature` leaves out entering the type parameters and parameters into the method environment; only the resulting type is modelled.
- Parameter naming: `TreeMaker.Params` is modelled as naming the parameters `x0`, `x1`, ...
- MemberSynthesis.SynthesizeTyparams: returns the list of type-variable names instead of prepending `TypeVar`s to the class type, whose bounds are not modelled.
- Annotations:
  - `Annotations.java` is not part of this model: a symbol's annotations are not started, pending, or entered together with the grouped map.
  - `Annotate.normal` is modelled as a queue per symbol.
  - `Annotate.enterAnnotation` is an oracle carried by each annotation tree.
  - `AnnotateRepeatedContext` and the map of annotation positions are left out.
- `HardcodedComment`, `treeCleaner` and the `ErrorType` subclasses of `modelMissingTypes` are left out: they are localization, tree clean-up and error-type modelling.

Error repair (`Repair.java`):
- Each visitor is modelled on values, as a function from the traversal state and a tree to the new state and the translated tree, and the class `Repair.Repairer` stores the result in its fields. Not captured:
  - the in-place cuts of statement lists (`last.tail = List.nil()`, `tree.defs = l.tail`);
  - the sharing of subtrees between the class environments and the trees;
  - the object identity of the nodes on the `parents` stack, beyond the id that names the static initializer.
- The iteration order of the `HashSet` of non-abstract methods is taken to be scope order.
- RepairTrees.Tree: a `TypeParameter` carries whether one of its bounds is erroneous instead of the bound trees, so the subtrees of a bound are not traversed.
- RepairTrees.ErrMethod: the header that `make.MethodDef(sym, block)` derives from the symbol (modifiers, type parameters, parameters, thrown types) is left empty; nothing visits a synthesized method after it is prepended.
- RepairTrees.FirstConstructorCall: looks only at the first statement, without `TreeInfo.firstConstructorCall`'s skipping of synthetic initializations.

Identifier characters (`JavaText.dfy`, used by the Filer and the processing environment):
- JavaText.IsIdentifierStart: follows `Character.isJavaIdentifierStart` exactly below U+0100 (ASCII and Latin-1) and takes no character from U+0100 on to start an identifier, because the Unicode character database is not modelled; a Greek or CJK letter is therefore rejected where Java accepts it.
- JavaText.IsIdentifierPart: follows `Character.isJavaIdentifierPart` exactly below U+0100, ignorable control characters and the soft hyphen included, and takes no character from U+0100 on to be part of one, for the same reason.
- Filer.JavacFiler.CheckName: `SourceVersion.isName` is decided with those two predicates, so names with characters from U+0100 on are rejected.
- ProcessingPatterns.CheckImportString: the same limit applies to the pieces of a supported-annotation string.
- ProcessingRound.ValidOptionNames: the same limit applies to option names.
- Processing.CheckOptionNames: the same limit applies, through ProcessingRound.ValidOptionNames.

Filer (`JavacFiler.java`):
- The file manager is an oracle (`getJavaFileForOutput`, `getFileForOutput`, `getFileForInput`, `isSameFile` as equality of file ids), and so are the element utilities.
- `getLocationForModule` in multi-module mode is left out: the file-manager oracles take the module symbol with the location, so the per-module location is part of the oracle.
- `handleOption`, `displayState`, `toString` and the data written through the `Writer` and `OutputStream` are left out.
- The read-only wrappers `FilerInputFileObject` and `FilerInputJavaFileObject` are left out: a resource read for input is returned as the file object the file manager found.
- `FilerOutputStream` and `FilerWriter` are one class, because their open and close rules are the same, and so are `FilerOutputFileObject` and `FilerOutputJavaFileObject`.

Processing environment (`JavacProcessingEnvironment.java`):
- Processors are given as a list. Left out are:
  - the service loader and class loaders: `ServiceIterator`, `initProcessorIterator`, `handleServiceLoaderUnavailability`, `needClassLoader`, `pathToURLs` and `fileToURL`;
  - reflection over processors, other than the outcomes of loading a named class.
- `doProcessing`, `Round`, `AttributionTaskListener`, `ComputeAnnotationSet` and `treeCleaner` are left out. They drive the compiler and the element model. The annotations present in a round are a parameter.
- `printProcessorInfo` and `displayFilerState` are left out, because they only report.
- Processing.ProcessingEnvironment.DiscoverAndRunProcs: the bookkeeping for `AbstractTypeProcessor` (JavacProcessingEnvironment.java:724-733) is left out. That is `foundTypeProcessors` and the `typeProcessor2Types` map from each type processor to the root types of its rounds. It only feeds `prepareAbstractTypeProcessorListener` and `AttributionTaskListener`, which run type processors after attribution and are left out too.
- The options map is unmodifiable in the source; Dafny maps are values, so that comes for free.
- Processing.TranslatePatterns: compiles each supported string with ImportStringToPatternCorrected, the corrected half of the first Findings row, rather than with importStringToPattern as written; the two agree on every string without `$` (ProcessingRound.PatternsAgreeWithoutDollar).
- Processing.NewProcessorState: its patterns are those of Processing.TranslatePatterns, so they come from the corrected translation as well.
- Processing.ProcessingEnvironment.DiscoverAndRunProcs: matches annotation names against the patterns of the states, which come from the corrected translation.
- Processing.ProcessingEnvironment.WarnIfUnmatchedOptions: logs the warning key without the rendered set of option names.

Diagnostics (`JCDiagnostic.java`):
- `getMessage`, `toString`, `DiagnosticFormatter` and `MessageFormat` are left out, because they are formatting.
- The source's line and column maps are an oracle of the diagnostic source.

## Findings

| source | as written | input that shows it | evidently intended | confidence | as-written member | corrected member |
|---|---|---|---|---|---|---|
| src/share/classes/com/sun/tools/javac/processing/JavacProcessingEnvironment.java:1413-1419 | only `.` is escaped before the supported string is compiled as a regular expression, so a `$`, which is legal in Java identifiers, acts as an anchor that matches at the end of the input or before a final line terminator | the supported string `a.b$`, which the validation accepts; its pattern rejects the annotation name `a.b$` and accepts `a.b` | the pattern of a valid dotted name matches exactly that name (`$` escaped like `.`) | not executed | ProcessingPatterns.DollarAnchorCounterexample | ProcessingPatterns.CorrectedNameMatchesItself |
| src/share/classes/com/sun/tools/javac/util/JCDiagnostic.java:363-365 | `getIntEndPosition` reads `source.getEndPosTable()` even when the source is null, which the constructor allows for a position whose preferred position is NOPOS | a warning with no source and the position `SimpleDiagnosticPosition(NOPOS)`: construction succeeds, and `getEndPosition` then dereferences the null source | the end position of a diagnostic without a source is computed without an end position table | not executed | Diagnostics.EndPositionAsWrittenFails | Diagnostics.GetEndPosition |

/** The stateful side of annotation processing in
    JavacProcessingEnvironment: the discovered processor states and their
    cached-then-lazy iterator, the comma-separated processor-name iterator,
    one round of matching annotations to processors, unmatched-option
    tracking, the lists of root classes and package-info files, and close. */
module Processing {
  import opened Wrappers
  import opened JavaText
  import opened ProcessingPatterns
  import opened ProcessingOptions
  import opened ProcessingRound

  /** The compiler log: the diagnostics reported so far, in order. */
  class Log {
    var entries: seq<LogEntry>

    constructor ()
      ensures entries == []
    {
      entries := [];
    }

    method Report(e: LogEntry)
      modifies this
      ensures entries == old(entries) + [e]
    {
      entries := entries + [e];
    }
  }

  /** The patterns of the supported annotation strings, with the warning
      logged for each malformed one. */
  method TranslatePatterns(types: seq<Text>) returns (patterns: seq<Pattern>, logged: seq<LogEntry>)
    ensures patterns == PatternsOf(types)
    ensures logged == MalformedWarnings(types)
  {
    patterns := [];
    logged := [];
    var i := 0;
    while i < |types|
      invariant 0 <= i <= |types|
      invariant |patterns| == i && forall k :: 0 <= k < i ==> patterns[k] == ImportStringToPatternCorrected(types[k])
      invariant logged == MalformedWarnings(types[..i])
    {
      var pattern := ImportStringToPatternCorrected(types[i]);
      ghost var upto := types[..i + 1];
      assert upto[..i] == types[..i] && upto[i] == types[i];
      if pattern == NoMatches {
        logged := logged + [LogEntry(Warning, "proc.malformed.supported.string", [types[i]])];
      }
      patterns := patterns + [pattern];
      i := i + 1;
    }
    assert types[..i] == types;
  }

  /** The supported option names that pass checkOptionName, with the error
      logged for each one that does not. */
  method CheckOptionNames(options: seq<Text>) returns (optionNames: seq<Text>, logged: seq<LogEntry>)
    ensures optionNames == ValidOptionNames(options)
    ensures logged == BadOptionErrors(options)
  {
    optionNames := [];
    logged := [];
    var j := 0;
    while j < |options|
      invariant 0 <= j <= |options|
      invariant optionNames == ValidOptionNames(options[..j])
      invariant logged == BadOptionErrors(options[..j])
    {
      if IsValidOptionName(options[j]) {
        optionNames := optionNames + [options[j]];
      } else {
        logged := logged + [LogEntry(Error, "proc.processor.bad.option.name", [options[j]])];
      }
      assert options[..j + 1][..j] == options[..j];
      j := j + 1;
    }
    assert options[..j] == options;
  }

  /** The ProcessorState constructor: initializes the processor, checks its
      source version, translates its supported annotation strings and keeps
      its valid option names; a processor whose init fails is invalid. */
  method NewProcessorState(p: Processor) returns (ps: ProcessorState, logged: seq<LogEntry>)
    ensures ps == StateOf(p)
    ensures logged == StateLog(p)
  {
    if p.initFails {
      return ProcessorState(p, false, true, [], []), [];
    }
    var versionLog := if p.olderSourceVersion then [LogEntry(Warning, "proc.processor.incompatible.source.version", [])] else [];
    var patterns, patternLog := TranslatePatterns(p.supportedAnnotationTypes);
    var optionNames, optionLog := CheckOptionNames(p.supportedOptions);
    ps := ProcessorState(p, false, false, patterns, optionNames);
    logged := versionLog + patternLog + optionLog;
  }

  /** ProcessorState.annotationSupported: tries the patterns in turn. */
  method AnnotationSupported(ps: ProcessorState, name: Text) returns (supported: bool)
    ensures supported <==> Supports(ps, name)
  {
    var i := 0;
    while i < |ps.patterns|
      invariant 0 <= i <= |ps.patterns|
      invariant forall k :: 0 <= k < i ==> !Matches(ps.patterns[k], name)
    {
      if Matches(ps.patterns[i], name) {
        return true;
      }
      i := i + 1;
    }
    return false;
  }

  /** The inner loop of a round: the unmatched names the processor supports. */
  method MatchNames(ps: ProcessorState, unmatched: set<Text>) returns (matched: set<Text>)
    ensures matched == MatchedNames(ps, unmatched)
  {
    matched := {};
    var rest := unmatched;
    while rest != {}
      invariant rest <= unmatched
      invariant matched == MatchedNames(ps, unmatched - rest)
      decreases |rest|
    {
      var name :| name in rest;
      var supported := AnnotationSupported(ps, name);
      if supported {
        matched := matched + {name};
      }
      assert unmatched - (rest - {name}) == (unmatched - rest) + {name};
      rest := rest - {name};
    }
  }

  /** DiscoveredProcessors: the processor states created so far, and the
      processors the underlying processor iterator will still yield. */
  class DiscoveredProcessors {
    var procStateList: seq<ProcessorState>
    var pending: seq<Processor>
    /** Whether the processor iterator is a service-loader iterator, which
        has resources to free. */
    const serviceIterator: bool
    /** How many times that service-loader iterator has been closed. */
    var closeCount: nat
    const log: Log

    constructor (processors: seq<Processor>, serviceIterator: bool, log: Log)
      ensures procStateList == [] && pending == processors && closeCount == 0
      ensures this.serviceIterator == serviceIterator && this.log == log
    {
      procStateList := [];
      pending := processors;
      this.serviceIterator := serviceIterator;
      closeCount := 0;
      this.log := log;
    }

    /** A new iterator for one round: it starts on the cached states. */
    method Iterator() returns (it: ProcessorStateIterator)
      ensures fresh(it) && it.psi == this && it.innerPos == 0 && !it.onProcIterator
    {
      it := new ProcessorStateIterator(this);
    }

    /** close: frees the service-loader iterator, if that is what it is. */
    method Close()
      modifies this`closeCount
      ensures closeCount == old(closeCount) + if serviceIterator then 1 else 0
    {
      if serviceIterator {
        closeCount := closeCount + 1;
      }
    }
  }

  /** ProcessorStateIterator: yields the cached states in order, then creates
      a state for each further processor and caches it. */
  class ProcessorStateIterator {
    const psi: DiscoveredProcessors
    /** The position of the iterator over the cached states. */
    var innerPos: nat
    var onProcIterator: bool

    ghost predicate Valid()
      reads this, psi
    {
      innerPos <= |psi.procStateList|
    }

    constructor (psi: DiscoveredProcessors)
      ensures this.psi == psi && innerPos == 0 && !onProcIterator
    {
      this.psi := psi;
      innerPos := 0;
      onProcIterator := false;
    }

    function HasNext(): bool
      reads this, psi
    {
      if onProcIterator then |psi.pending| > 0
      else innerPos < |psi.procStateList| || |psi.pending| > 0
    }

    /** next: the index in procStateList of the state yielded, or None for
        NoSuchElementException. */
    method Next() returns (r: Option<nat>)
      requires Valid()
      modifies this, psi, psi.log
      ensures Valid()
      ensures psi.closeCount == old(psi.closeCount)
      ensures old(!onProcIterator && innerPos < |psi.procStateList|) ==>
        r == Some(old(innerPos)) && innerPos == old(innerPos) + 1 && !onProcIterator
        && psi.procStateList == old(psi.procStateList) && psi.pending == old(psi.pending)
        && psi.log.entries == old(psi.log.entries)
      ensures old(onProcIterator || innerPos == |psi.procStateList|) ==>
        onProcIterator && innerPos == old(innerPos)
      ensures old(onProcIterator || innerPos == |psi.procStateList|) && old(|psi.pending|) > 0 ==>
        r == Some(old(|psi.procStateList|))
        && psi.procStateList == old(psi.procStateList) + [StateOf(old(psi.pending[0]))]
        && psi.pending == old(psi.pending[1..])
        && psi.log.entries == old(psi.log.entries) + StateLog(old(psi.pending[0]))
      ensures old(onProcIterator || innerPos == |psi.procStateList|) && old(|psi.pending|) == 0 ==>
        r == None && psi.procStateList == old(psi.procStateList)
        && psi.pending == old(psi.pending) && psi.log.entries == old(psi.log.entries)
    {
      if !onProcIterator {
        if innerPos < |psi.procStateList| {
          r := Some(innerPos);
          innerPos := innerPos + 1;
          return;
        } else {
          onProcIterator := true;
        }
      }
      if |psi.pending| > 0 {
        var ps, logged := NewProcessorState(psi.pending[0]);
        psi.log.entries := psi.log.entries + logged;
        psi.pending := psi.pending[1..];
        psi.procStateList := psi.procStateList + [ps];
        r := Some(|psi.procStateList| - 1);
      } else {
        r := None;
      }
    }

    /** runContributingProcs: when still on the cached states, calls every
        remaining one that is valid and has contributed before, with no
        annotation elements; claims says how each call of process ends, and
        what callProcessor logs for it goes to the log. */
    method RunContributingProcs(claims: (nat, set<Text>) -> CallOutcome) returns (called: seq<nat>)
      requires Valid()
      modifies this`innerPos, psi.log
      ensures Valid()
      ensures old(onProcIterator) ==>
        called == [] && innerPos == old(innerPos) && psi.log.entries == old(psi.log.entries)
      ensures !old(onProcIterator) ==>
        called == ContributingFrom(psi.procStateList, old(innerPos)) && innerPos == |psi.procStateList|
        && psi.log.entries == old(psi.log.entries) + ContributingLog(psi.procStateList, old(innerPos), claims)
    {
      called := [];
      if !onProcIterator {
        var list := psi.procStateList;
        var pos := innerPos;
        while pos < |list|
          invariant innerPos == old(innerPos) <= pos <= |list|
          invariant psi.procStateList == list
          invariant called + ContributingFrom(list, pos) == ContributingFrom(list, innerPos)
          invariant psi.log.entries + ContributingLog(list, pos, claims)
            == old(psi.log.entries) + ContributingLog(list, innerPos, claims)
          decreases |list| - pos
        {
          var ps := list[pos];
          ContributingStep(list, pos, called);
          ContributingLogStep(list, pos, claims, psi.log.entries);
          if !ps.invalid && ps.contributed {
            called := called + [pos];
            var outcome := claims(ps.processor.id, {});
            psi.log.entries := psi.log.entries + CallProcessorLog(outcome);
          }
          pos := pos + 1;
        }
        assert called + ContributingFrom(list, pos) == called;
        assert psi.log.entries + ContributingLog(list, pos, claims) == psi.log.entries;
        innerPos := pos;
      }
    }
  }

  /** One turn of the loop of runContributingProcs. */
  lemma ContributingStep(list: seq<ProcessorState>, pos: nat, called: seq<nat>)
    requires pos < |list|
    ensures var ps := list[pos];
      (if !ps.invalid && ps.contributed then called + [pos] else called) + ContributingFrom(list, pos + 1)
        == called + ContributingFrom(list, pos)
  {
    var ps := list[pos];
    if !ps.invalid && ps.contributed {
      assert ContributingFrom(list, pos) == [pos] + ContributingFrom(list, pos + 1);
      assert called + [pos] + ContributingFrom(list, pos + 1) == called + ContributingFrom(list, pos);
    }
  }

  /** One turn of the loop of runContributingProcs, for the log. */
  lemma ContributingLogStep(list: seq<ProcessorState>, pos: nat, claims: (nat, set<Text>) -> CallOutcome,
                            entries: seq<LogEntry>)
    requires pos < |list|
    ensures var ps := list[pos];
      (if !ps.invalid && ps.contributed then entries + CallProcessorLog(claims(ps.processor.id, {})) else entries)
        + ContributingLog(list, pos + 1, claims)
        == entries + ContributingLog(list, pos, claims)
  {
    var ps := list[pos];
    if !ps.invalid && ps.contributed {
      var here := CallProcessorLog(claims(ps.processor.id, {}));
      AppendAssoc(entries, here, ContributingLog(list, pos + 1, claims));
    }
  }

  /** How loading and instantiating a named processor class ends. */
  datatype LoadOutcome = Loaded(processor: Processor) | ClassNotFound | WrongType | CannotInstantiate | LoadCrash

  datatype IterationError = NoSuchElement | AnnotationProcessingError

  /** NameProcessIterator: the processors named by the -processor option,
      loaded one at a time; the class loader is an oracle. */
  /** The error hasNext logs when loading a named processor fails short of
      a crash: none for a loaded processor or a crash. */
  function LoadFailureLog(name: Text, outcome: LoadOutcome): seq<LogEntry> {
    match outcome
    case ClassNotFound => [LogEntry(Error, "proc.processor.not.found", [name])]
    case WrongType => [LogEntry(Error, "proc.processor.wrong.type", [name])]
    case CannotInstantiate => [LogEntry(Error, "proc.processor.cant.instantiate", [name])]
    case _ => []
  }

  class NameProcessIterator {
    var nextProc: Option<Processor>
    /** The names not yet loaded. */
    var names: seq<Text>
    const load: Text -> LoadOutcome
    const log: Log

    constructor (processorNames: Text, load: Text -> LoadOutcome, log: Log)
      ensures names == SplitDroppingTrailing(processorNames, ',') && nextProc == None
      ensures this.load == load && this.log == log
    {
      names := SplitDroppingTrailing(processorNames, ',');
      nextProc := None;
      this.load := load;
      this.log := log;
    }

    /** hasNext: true with a processor cached; otherwise loads the next name,
        caching the processor, or logging the failure and answering false;
        a crash of the loader becomes an AnnotationProcessingError. */
    method HasNext() returns (r: Result<bool, IterationError>)
      modifies this, log
      ensures old(nextProc).Some? ==>
        r == Success(true) && nextProc == old(nextProc) && names == old(names) && log.entries == old(log.entries)
      ensures old(nextProc).None? && old(names) == [] ==>
        r == Success(false) && nextProc == None && names == [] && log.entries == old(log.entries)
      ensures old(nextProc).None? && old(names) != [] ==>
        names == old(names[1..])
        && match load(old(names[0]))
           case Loaded(p) => r == Success(true) && nextProc == Some(p) && log.entries == old(log.entries)
           case ClassNotFound => r == Success(false) && nextProc == None
             && log.entries == old(log.entries) + [LogEntry(Error, "proc.processor.not.found", [old(names[0])])]
           case WrongType => r == Success(false) && nextProc == None
             && log.entries == old(log.entries) + [LogEntry(Error, "proc.processor.wrong.type", [old(names[0])])]
           case CannotInstantiate => r == Success(false) && nextProc == None
             && log.entries == old(log.entries) + [LogEntry(Error, "proc.processor.cant.instantiate", [old(names[0])])]
           case LoadCrash => (r == Failure(AnnotationProcessingError) && nextProc == None
             && log.entries == old(log.entries))
    {
      if nextProc.Some? {
        return Success(true);
      }
      if names == [] {
        return Success(false);
      }
      var processorName := names[0];
      names := names[1..];
      match load(processorName)
      case Loaded(p) =>
        nextProc := Some(p);
        r := Success(true);
      case ClassNotFound =>
        log.Report(LogEntry(Error, "proc.processor.not.found", [processorName]));
        r := Success(false);
      case WrongType =>
        log.Report(LogEntry(Error, "proc.processor.wrong.type", [processorName]));
        r := Success(false);
      case CannotInstantiate =>
        log.Report(LogEntry(Error, "proc.processor.cant.instantiate", [processorName]));
        r := Success(false);
      case LoadCrash =>
        r := Failure(AnnotationProcessingError);
    }

    /** next: hands out the processor hasNext cached and clears the cache;
        NoSuchElementException when hasNext answers false. */
    method Next() returns (r: Result<Processor, IterationError>)
      modifies this, log
      ensures nextProc == None
      ensures old(nextProc).Some? ==> r == Success(old(nextProc).value) && names == old(names)
      ensures old(nextProc).None? && old(names) == [] ==> r == Failure(NoSuchElement) && names == []
      ensures old(nextProc).None? && old(names) != [] ==>
        names == old(names[1..])
        && match load(old(names[0]))
           case Loaded(p) => r == Success(p)
           case LoadCrash => r == Failure(AnnotationProcessingError)
           case _ => r == Failure(NoSuchElement)
      ensures old(nextProc).Some? || old(names) == [] ==> log.entries == old(log.entries)
      ensures old(nextProc).None? && old(names) != [] ==>
        log.entries == old(log.entries) + LoadFailureLog(old(names[0]), load(old(names[0])))
    {
      var h := HasNext();
      match h
      case Success(true) =>
        r := Success(nextProc.value);
        nextProc := None;
      case Success(false) =>
        r := Failure(NoSuchElement);
      case Failure(e) =>
        r := Failure(e);
    }
  }

  /** A top-level definition of a compilation unit: a class declaration
      with its symbol, or anything else. */
  datatype TopLevelDef = ClassDecl(sym: nat) | OtherDef

  /** A compilation unit: its definitions, whether its source file is a
      package-info file, and its package symbol. */
  datatype CompilationUnit = CompilationUnit(defs: seq<TopLevelDef>, isPackageInfo: bool, packge: nat)

  /** The class symbols of a list of definitions, in order. */
  function ClassesOf(defs: seq<TopLevelDef>): seq<nat> {
    if |defs| == 0 then []
    else ClassesOf(defs[..|defs| - 1]) + (match defs[|defs| - 1] case ClassDecl(c) => [c] case OtherDef => [])
  }

  /** The class symbols of the units, unit by unit and in declaration order. */
  function TopLevelClasses(units: seq<CompilationUnit>): seq<nat> {
    if |units| == 0 then [] else TopLevelClasses(units[..|units| - 1]) + ClassesOf(units[|units| - 1].defs)
  }

  /** The packages of the package-info units, in unit order. */
  function PackageInfoPackages(units: seq<CompilationUnit>): seq<nat> {
    if |units| == 0 then []
    else PackageInfoPackages(units[..|units| - 1]) + (if units[|units| - 1].isPackageInfo then [units[|units| - 1].packge] else [])
  }

  function Reverse<T>(s: seq<T>): (r: seq<T>)
    ensures |r| == |s|
  {
    if |s| == 0 then [] else Reverse(s[1..]) + [s[0]]
  }

  lemma {:induction false} ReversePrepend<T>(x: T, s: seq<T>)
    ensures Reverse(s + [x]) == [x] + Reverse(s)
  {
    if |s| > 0 {
      assert (s + [x])[1..] == s[1..] + [x];
      ReversePrepend(x, s[1..]);
    } else {
      assert s + [x] == [x];
    }
  }

  lemma {:induction false} ReverseReverse<T>(s: seq<T>)
    ensures Reverse(Reverse(s)) == s
  {
    if |s| > 0 {
      ReverseReverse(s[1..]);
      ReversePrepend(s[0], Reverse(s[1..]));
      assert s == [s[0]] + s[1..];
    }
  }

  /** The inner loop of getTopLevelClasses: prepends the class
      declarations of one unit. */
  method PrependClasses(defs: seq<TopLevelDef>, ghost before: seq<nat>, acc: seq<nat>) returns (r: seq<nat>)
    requires acc == Reverse(before)
    ensures r == Reverse(before + ClassesOf(defs))
  {
    r := acc;
    assert before + ClassesOf(defs[..0]) == before;
    var j := 0;
    while j < |defs|
      invariant 0 <= j <= |defs|
      invariant r == Reverse(before + ClassesOf(defs[..j]))
    {
      ghost var sofar := before + ClassesOf(defs[..j]);
      assert defs[..j + 1][..j] == defs[..j];
      if defs[j].ClassDecl? {
        ReversePrepend(defs[j].sym, sofar);
        assert sofar + [defs[j].sym] == before + ClassesOf(defs[..j + 1]);
        r := [defs[j].sym] + r;
      } else {
        assert ClassesOf(defs[..j + 1]) == ClassesOf(defs[..j]);
      }
      j := j + 1;
    }
    assert defs[..j] == defs;
  }

  /** getTopLevelClasses: prepends every class declaration of every unit and
      reverses the result, so the order is that of the units and their
      definitions. */
  method GetTopLevelClasses(units: seq<CompilationUnit>) returns (classes: seq<nat>)
    ensures classes == TopLevelClasses(units)
  {
    var acc: seq<nat> := [];
    var i := 0;
    while i < |units|
      invariant 0 <= i <= |units|
      invariant acc == Reverse(TopLevelClasses(units[..i]))
    {
      assert units[..i + 1][..i] == units[..i];
      acc := PrependClasses(units[i].defs, TopLevelClasses(units[..i]), acc);
      i := i + 1;
    }
    assert units[..i] == units;
    ReverseReverse(TopLevelClasses(units));
    classes := Reverse(acc);
  }

  /** getPackageInfoFiles: the packages of the package-info units, in unit order. */
  method GetPackageInfoFiles(units: seq<CompilationUnit>) returns (packages: seq<nat>)
    ensures packages == PackageInfoPackages(units)
  {
    var acc: seq<nat> := [];
    var i := 0;
    while i < |units|
      invariant 0 <= i <= |units|
      invariant acc == Reverse(PackageInfoPackages(units[..i]))
    {
      assert units[..i + 1][..i] == units[..i];
      if units[i].isPackageInfo {
        assert PackageInfoPackages(units[..i + 1]) == PackageInfoPackages(units[..i]) + [units[i].packge];
        ReversePrepend(units[i].packge, PackageInfoPackages(units[..i]));
        acc := [units[i].packge] + acc;
      } else {
        assert PackageInfoPackages(units[..i + 1]) == PackageInfoPackages(units[..i]);
      }
      i := i + 1;
    }
    assert units[..i] == units;
    ReverseReverse(PackageInfoPackages(units));
    packages := Reverse(acc);
  }

  /** The body of the round loop for one (valid or invalid) state at index
      i: skipped when invalid; otherwise, when it matches an unmatched name
      or has contributed before, the processor is called, its options are
      no longer unmatched and, if callProcessor answers true, the names it
      matched are claimed.  logged is what callProcessor logged. */
  method VisitState(ghost rs: RoundState, i: nat, ps: ProcessorState, unmatched: set<Text>,
                    unmatchedOptions: set<OptionKey>, claims: (nat, set<Text>) -> CallOutcome)
    returns (call: Option<Call>, unmatched': set<Text>, unmatchedOptions': set<OptionKey>, logged: seq<LogEntry>)
    requires i < |rs.states| && rs.states[i] == ps
    requires rs.unmatched == unmatched && rs.unmatchedOptions == unmatchedOptions
    ensures call == StepCall(rs, i, claims)
    ensures unmatched' == Step(rs, i, claims).unmatched
    ensures unmatchedOptions' == Step(rs, i, claims).unmatchedOptions
    ensures logged == if call.Some? then CallProcessorLog(call.value.outcome) else []
  {
    call, unmatched', unmatchedOptions', logged := None, unmatched, unmatchedOptions, [];
    if !ps.invalid {
      var matchedNames := MatchNames(ps, unmatched);
      if |matchedNames| > 0 || ps.contributed {
        var typeElements := matchedNames - {""};
        var outcome := claims(ps.processor.id, typeElements);
        logged := CallProcessorLog(outcome);
        call := Some(Call(i, matchedNames, typeElements, outcome));
        unmatchedOptions' := RemoveSupportedOptions(ps, unmatchedOptions);
        if ProcessingResult(outcome) {
          unmatched' := unmatched - matchedNames;
        }
      }
    }
  }

  /** What one turn does to the states visible so far, the states not yet
      visited and the calls. */
  lemma TurnShape(rs: RoundState, i: nat, claims: (nat, set<Text>) -> CallOutcome,
                  all: seq<ProcessorState>, listed: nat)
    requires i < listed <= |rs.states| && Untouched(rs, i, all)
    ensures var next := Step(rs, i, claims);
      var c := StepCall(rs, i, claims);
      Untouched(next, i + 1, all)
      && (c.None? ==> next == rs)
      && (c.Some? ==>
            next.states[..listed] == rs.states[..listed][i := rs.states[i].(contributed := true)]
            && next.calls == rs.calls + [c.value])
  {
    StepShape(rs, i, claims);
    var ps := rs.states[i];
    assert rs.states[..listed][i := ps.(contributed := true)] == rs.states[i := ps.(contributed := true)][..listed];
  }

  /** The bookkeeping of the processor iterator creating the state at
      index i of states, the n0 cached states followed by those of
      pending0. */
  lemma FetchCreated(states: seq<ProcessorState>, i: nat, n0: nat, pending0: seq<Processor>,
                     oldList: seq<ProcessorState>, oldPending: seq<Processor>)
    requires n0 <= i < |states| && i - n0 < |pending0| && states[i] == StateOf(pending0[i - n0])
    requires oldList == states[..i] && oldPending == pending0[i - n0..]
    ensures |oldPending| > 0 && oldPending[0] == pending0[i - n0]
    ensures oldList + [StateOf(oldPending[0])] == states[..i + 1]
    ensures oldPending[1..] == pending0[i + 1 - n0..]
  {
    TakeSnoc(states, i);
  }

  /** Recording the call of turn i keeps every call before the next turn
      and appends what callProcessor logged to the round's log. */
  lemma CallRecorded(created: seq<seq<LogEntry>>, n0: nat, calls: seq<Call>, c: Call, i: nat,
                     log0: seq<LogEntry>, entries: seq<LogEntry>, logged: seq<LogEntry>)
    requires CallsBefore(calls, i)
    requires c.index == i && logged == CallProcessorLog(c.outcome)
    requires entries == log0 + RoundLog(created, n0, calls, i + 1)
    ensures CallsBefore(calls + [c], i + 1)
    ensures entries + logged == log0 + RoundLog(created, n0, calls + [c], i + 1)
  {
    CallsBeforeLater(calls, i, i + 1);
    assert (calls + [c])[..|calls|] == calls;
    RoundLogCall(created, n0, calls, c, i);
    AppendAssoc(log0, RoundLog(created, n0, calls, i + 1), logged);
  }

  /** The state at index i of the cached states followed by those of
      pending0 is the state of its processor. */
  lemma StateAt(all: seq<ProcessorState>, n0: nat, pending0: seq<Processor>, i: nat)
    requires n0 <= i < |all| && |all| == n0 + |pending0| && all[n0..] == StatesOf(pending0)
    ensures all[i] == StateOf(pending0[i - n0])
  {
    assert all[i] == all[n0..][i - n0];
    StatesOfAt(pending0, i - n0);
  }

  lemma AppendAssoc<T>(a: seq<T>, b: seq<T>, c: seq<T>)
    ensures (a + b) + c == a + (b + c)
  {
  }

  lemma TakeSnoc<T>(s: seq<T>, i: nat)
    requires i < |s|
    ensures s[..i + 1] == s[..i] + [s[i]]
  {
  }

  function Max(a: nat, b: nat): nat {
    if a < b then b else a
  }

  /** The annotation-processing environment: the processor options and
      those no processor has claimed, the discovered processors (null once
      dropped), the log, and the resources close frees. */
  class ProcessingEnvironment {
    const processorOptions: OrderedMap
    var unmatchedProcessorOptions: set<OptionKey>
    var discoveredProcs: DiscoveredProcessors?
    const log: Log
    const lint: bool
    /** How many times the filer has been closed. */
    var filerCloseCount: nat
    /** Whether the processor class loader is closeable, and how many times it was closed. */
    const closeableLoader: bool
    var loaderCloseCount: nat

    constructor (optionNames: seq<Text>, processors: seq<Processor>, serviceIterator: bool,
                 lint: bool, closeableLoader: bool)
      ensures processorOptions == OptionsOf(optionNames)
      ensures unmatchedProcessorOptions == InitialUnmatchedOptions(processorOptions)
      ensures fresh(log) && log.entries == []
      ensures discoveredProcs != null && fresh(discoveredProcs) && discoveredProcs.log == log
      ensures discoveredProcs.procStateList == [] && discoveredProcs.pending == processors
      ensures discoveredProcs.serviceIterator == serviceIterator && discoveredProcs.closeCount == 0
      ensures this.lint == lint && this.closeableLoader == closeableLoader
      ensures filerCloseCount == 0 && loaderCloseCount == 0
    {
      var options := InitProcessorOptions(optionNames);
      processorOptions := options;
      unmatchedProcessorOptions := InitialUnmatchedOptions(options);
      var l := new Log();
      log := l;
      discoveredProcs := new DiscoveredProcessors(processors, serviceIterator, l);
      this.lint := lint;
      this.closeableLoader := closeableLoader;
      filerCloseCount := 0;
      loaderCloseCount := 0;
    }

    /** warnIfUnmatchedOptions: one warning exactly when some option is unmatched. */
    method WarnIfUnmatchedOptions()
      modifies log
      ensures log.entries == old(log.entries)
        + if unmatchedProcessorOptions != {} then [LogEntry(Warning, "proc.unmatched.processor.options", [])] else []
    {
      if unmatchedProcessorOptions != {} {
        log.Report(LogEntry(Warning, "proc.unmatched.processor.options", []));
      }
    }

    /** close(dropProcessors): closes the filer; when dropping processors,
        closes the discovered processors if they are still there, forgets
        them and closes a closeable class loader.  A second close finds
        discoveredProcs null and leaves it alone. */
    method Close(dropProcessors: bool)
      modifies this, discoveredProcs
      ensures filerCloseCount == old(filerCloseCount) + 1
      ensures dropProcessors ==>
        discoveredProcs == null && loaderCloseCount == old(loaderCloseCount) + (if closeableLoader then 1 else 0)
      ensures dropProcessors && old(discoveredProcs) != null ==>
        old(discoveredProcs).closeCount
          == old(discoveredProcs.closeCount) + (if old(discoveredProcs).serviceIterator then 1 else 0)
      ensures !dropProcessors ==>
        discoveredProcs == old(discoveredProcs) && loaderCloseCount == old(loaderCloseCount)
        && (discoveredProcs != null ==> discoveredProcs.closeCount == old(discoveredProcs.closeCount))
      ensures unmatchedProcessorOptions == old(unmatchedProcessorOptions)
    {
      filerCloseCount := filerCloseCount + 1;
      if dropProcessors {
        if discoveredProcs != null {
          discoveredProcs.Close();
        }
        discoveredProcs := null;
        if closeableLoader {
          loaderCloseCount := loaderCloseCount + 1;
        }
      }
    }

    /** How far a round has got after visiting the states before index i
        of all (the n0 cached states and the states of pending0): the
        iterator's position, the states created and cached so far, what
        their creation and the calls logged, and the round state rs with its
        unmatched names and calls, all made before turn i. */
    ghost predicate RoundProgress(dp: DiscoveredProcessors, psi: ProcessorStateIterator, rs: RoundState, i: nat,
                                  all: seq<ProcessorState>, n0: nat, pending0: seq<Processor>,
                                  log0: seq<LogEntry>, unmatched: set<Text>, calls: seq<Call>)
      reads this, dp, psi, log
    {
      i <= |all| && |all| == n0 + |pending0|
      && n0 <= |all| && all[n0..] == StatesOf(pending0)
      && discoveredProcs == dp && psi.psi == dp && dp.log == log && psi.Valid()
      && rs == RoundState(rs.states, unmatched, unmatchedProcessorOptions, calls)
      && Untouched(rs, i, all)
      && psi.innerPos == (if i <= n0 then i else n0)
      && (psi.onProcIterator <==> i > n0)
      && dp.procStateList == rs.states[..Max(i, n0)]
      && dp.pending == pending0[Max(i, n0) - n0..]
      && CallsBefore(calls, i)
      && log.entries == log0 + RoundLog(StateLogs(pending0), n0, calls, i)
    }

    /** The start of a turn of the round loop: the iterator yields the
        state at index i, cached or newly created. */
    method FetchState(psi: ProcessorStateIterator, ghost rs: RoundState, ghost i: nat,
                      ghost all: seq<ProcessorState>, ghost n0: nat, ghost pending0: seq<Processor>,
                      ghost log0: seq<LogEntry>, ghost unmatched: set<Text>, ghost calls: seq<Call>)
      returns (index: nat, ps: ProcessorState)
      requires discoveredProcs != null
      requires RoundProgress(discoveredProcs, psi, rs, i, all, n0, pending0, log0, unmatched, calls)
      requires i < |all|
      modifies discoveredProcs, psi, log
      ensures RoundProgress(discoveredProcs, psi, rs, i + 1, all, n0, pending0, log0, unmatched, calls)
      ensures index == i && ps == rs.states[i]
    {
      var dp := discoveredProcs;
      ghost var listed := Max(i + 1, n0);
      ghost var oldList := dp.procStateList;
      ghost var oldPending := dp.pending;
      ghost var before := RoundLog(StateLogs(pending0), n0, calls, i);
      ghost var created := TurnCreationLog(StateLogs(pending0), n0, i);
      ghost var entries0 := log.entries;
      var r := psi.Next();
      assert r == Some(i);
      if i >= n0 {
        StateAt(all, n0, pending0, i);
        StateLogsAt(pending0, i - n0);
        FetchCreated(rs.states, i, n0, pending0, oldList, oldPending);
        assert created == StateLog(oldPending[0]);
        assert log.entries == entries0 + created;
      } else {
        assert log.entries == entries0 + created;
      }
      assert log.entries == log0 + before + created;
      RoundLogFetch(StateLogs(pending0), n0, calls, i);
      AppendAssoc(log0, before, created);
      CallsBeforeLater(calls, i, i + 1);
      assert dp.procStateList == rs.states[..listed];
      index := r.value;
      ps := dp.procStateList[index];
    }

    /** One turn of the round loop: the next state from the iterator and
        its visit. */
    method RoundTurn(psi: ProcessorStateIterator, ghost rs: RoundState, ghost i: nat,
                     ghost all: seq<ProcessorState>, ghost n0: nat, ghost pending0: seq<Processor>,
                     ghost log0: seq<LogEntry>, unmatched: set<Text>, calls: seq<Call>,
                     claims: (nat, set<Text>) -> CallOutcome)
      returns (unmatched': set<Text>, calls': seq<Call>)
      requires discoveredProcs != null
      requires RoundProgress(discoveredProcs, psi, rs, i, all, n0, pending0, log0, unmatched, calls)
      requires i < |all|
      modifies this, discoveredProcs, psi, log
      ensures discoveredProcs == old(discoveredProcs)
      ensures RoundProgress(discoveredProcs, psi, Step(rs, i, claims), i + 1, all, n0, pending0, log0, unmatched', calls')
    {
      ghost var next := Step(rs, i, claims);
      TurnShape(rs, i, claims, all, Max(i + 1, n0));
      StepShape(rs, i, claims);
      var index, ps := FetchState(psi, rs, i, all, n0, pending0, log0, unmatched, calls);
      var call, options, logged;
      call, unmatched', options, logged := VisitState(rs, index, ps, unmatched, unmatchedProcessorOptions, claims);
      calls' := RecordTurn(psi, rs, next, i, all, n0, pending0, log0, calls, index, ps, call, unmatched', options, logged);
    }

    /** The end of a turn of the round loop, which takes the round from rs
        to next: the visit's unmatched options, its call with the state now
        a contributor, and what it logged. */
    method RecordTurn(psi: ProcessorStateIterator, ghost rs: RoundState, ghost next: RoundState, ghost i: nat,
                      ghost all: seq<ProcessorState>, ghost n0: nat, ghost pending0: seq<Processor>,
                      ghost log0: seq<LogEntry>, calls: seq<Call>, index: nat, ps: ProcessorState,
                      call: Option<Call>, unmatched': set<Text>, options: set<OptionKey>, logged: seq<LogEntry>)
      returns (calls': seq<Call>)
      requires discoveredProcs != null
      requires RoundProgress(discoveredProcs, psi, rs, i + 1, all, n0, pending0, log0, rs.unmatched, calls)
      requires i < |all| && CallsBefore(calls, i)
      requires index == i && ps == rs.states[i]
      requires Untouched(next, i + 1, all)
      requires next.unmatched == unmatched' && next.unmatchedOptions == options
      requires call.None? ==> next == rs
      requires call.Some? ==>
        call.value.index == i && next.calls == calls + [call.value]
        && next.states[..Max(i + 1, n0)] == rs.states[..Max(i + 1, n0)][i := ps.(contributed := true)]
      requires logged == if call.Some? then CallProcessorLog(call.value.outcome) else []
      modifies this`unmatchedProcessorOptions, discoveredProcs`procStateList, log`entries
      ensures RoundProgress(discoveredProcs, psi, next, i + 1, all, n0, pending0, log0, unmatched', calls')
    {
      var dp := discoveredProcs;
      unmatchedProcessorOptions := options;
      calls' := calls;
      if call.Some? {
        CallRecorded(StateLogs(pending0), n0, calls, call.value, i, log0, log.entries, logged);
        calls' := calls + [call.value];
        dp.procStateList := dp.procStateList[index := ps.(contributed := true)];
        log.entries := log.entries + logged;
      }
    }

    /** Whether the iterator has a next state, in terms of the round's progress. */
    lemma ProgressHasNext(dp: DiscoveredProcessors, psi: ProcessorStateIterator, rs: RoundState, i: nat,
                          all: seq<ProcessorState>, n0: nat, pending0: seq<Processor>,
                          log0: seq<LogEntry>, unmatched: set<Text>, calls: seq<Call>)
      requires RoundProgress(dp, psi, rs, i, all, n0, pending0, log0, unmatched, calls)
      ensures psi.HasNext() <==> i < |all|
    {
    }

    /** The loop of discoverAndRunProcs: while some annotation is
        unmatched and the iterator has a state, visits the next state.  It
        answers the iterator, the names left unmatched and the calls made,
        and ghostly where the loop stopped. */
    method MatchAnnotations(unmatched0: set<Text>, claims: (nat, set<Text>) -> CallOutcome)
      returns (psi: ProcessorStateIterator, unmatched: set<Text>, calls: seq<Call>, ghost o: RoundOutcome)
      requires discoveredProcs != null && discoveredProcs.log == log
      modifies this, discoveredProcs, log
      ensures discoveredProcs == old(discoveredProcs) && fresh(psi) && psi.psi == discoveredProcs && psi.Valid()
      ensures o == RunFrom(RoundState(old(discoveredProcs.procStateList) + StatesOf(old(discoveredProcs.pending)),
                                      unmatched0, old(unmatchedProcessorOptions), []), 0, claims)
      ensures calls == o.final.calls && unmatched == o.final.unmatched
      ensures unmatchedProcessorOptions == o.final.unmatchedOptions
      ensures var n0 := |old(discoveredProcs.procStateList)|;
        var listed := Max(o.visited, n0);
        && discoveredProcs.procStateList == o.final.states[..listed]
        && discoveredProcs.pending == old(discoveredProcs.pending)[listed - n0..]
      ensures var n0 := |old(discoveredProcs.procStateList)|;
        && psi.innerPos == (if o.visited <= n0 then o.visited else n0)
        && (psi.onProcIterator <==> o.visited > n0)
      ensures log.entries
        == old(log.entries) + RoundLog(StateLogs(old(discoveredProcs.pending)), |old(discoveredProcs.procStateList)|, calls, o.visited)
    {
      var dp := discoveredProcs;
      ghost var n0 := |dp.procStateList|;
      ghost var pending0 := dp.pending;
      ghost var log0 := log.entries;
      ghost var all := dp.procStateList + StatesOf(dp.pending);
      unmatched := unmatched0;
      ghost var start := RoundState(all, unmatched, unmatchedProcessorOptions, []);
      o := RunFrom(start, 0, claims);
      psi := dp.Iterator();
      ghost var rs, i;
      unmatched, calls, rs, i := RoundLoop(psi, start, all, n0, pending0, log0, unmatched, claims);
      RoundEnd(dp, psi, rs, i, all, n0, pending0, log0, unmatched, calls, o);
    }

    /** The state of the round before its first turn. */
    lemma RoundStart(dp: DiscoveredProcessors, psi: ProcessorStateIterator, start: RoundState,
                     all: seq<ProcessorState>, n0: nat, pending0: seq<Processor>,
                     log0: seq<LogEntry>, unmatched: set<Text>)
      requires discoveredProcs == dp && dp.log == log && psi.psi == dp
      requires psi.innerPos == 0 && !psi.onProcIterator
      requires n0 == |dp.procStateList| && pending0 == dp.pending && log0 == log.entries
      requires all == dp.procStateList + StatesOf(dp.pending)
      requires start == RoundState(all, unmatched, unmatchedProcessorOptions, [])
      ensures RoundProgress(dp, psi, start, 0, all, n0, pending0, log0, unmatched, [])
    {
      assert dp.pending[0..] == dp.pending;
      assert all[..n0] == dp.procStateList;
    }

    /** What the progress of the round says once the loop has stopped with
        the given outcome. */
    lemma RoundEnd(dp: DiscoveredProcessors, psi: ProcessorStateIterator, rs: RoundState, i: nat,
                   all: seq<ProcessorState>, n0: nat, pending0: seq<Processor>,
                   log0: seq<LogEntry>, unmatched: set<Text>, calls: seq<Call>, o: RoundOutcome)
      requires RoundProgress(dp, psi, rs, i, all, n0, pending0, log0, unmatched, calls)
      requires o == RoundOutcome(rs, i)
      ensures n0 <= Max(o.visited, n0) <= |o.final.states| && Max(o.visited, n0) - n0 <= |pending0|
      ensures calls == o.final.calls && unmatched == o.final.unmatched
      ensures unmatchedProcessorOptions == o.final.unmatchedOptions
      ensures dp.procStateList == o.final.states[..Max(o.visited, n0)]
      ensures dp.pending == pending0[Max(o.visited, n0) - n0..]
      ensures psi.innerPos == (if o.visited <= n0 then o.visited else n0)
      ensures psi.onProcIterator <==> o.visited > n0
      ensures log.entries == log0 + RoundLog(StateLogs(pending0), n0, calls, o.visited)
    {
    }

    /** The loop itself: from the start of the round, visits states while
        an annotation is unmatched and a state is left; where it stops is
        the outcome of the round. */
    method RoundLoop(psi: ProcessorStateIterator, ghost start: RoundState,
                     ghost all: seq<ProcessorState>, ghost n0: nat, ghost pending0: seq<Processor>,
                     ghost log0: seq<LogEntry>, unmatched0: set<Text>, claims: (nat, set<Text>) -> CallOutcome)
      returns (unmatched: set<Text>, calls: seq<Call>, ghost rs: RoundState, ghost i: nat)
      requires discoveredProcs != null && discoveredProcs.log == log && psi.psi == discoveredProcs
      requires psi.innerPos == 0 && !psi.onProcIterator
      requires n0 == |discoveredProcs.procStateList| && pending0 == discoveredProcs.pending && log0 == log.entries
      requires all == discoveredProcs.procStateList + StatesOf(discoveredProcs.pending)
      requires start == RoundState(all, unmatched0, unmatchedProcessorOptions, [])
      modifies this, discoveredProcs, psi, log
      ensures discoveredProcs == old(discoveredProcs)
      ensures RoundProgress(discoveredProcs, psi, rs, i, all, n0, pending0, log0, unmatched, calls)
      ensures RunFrom(start, 0, claims) == RoundOutcome(rs, i)
    {
      var dp := discoveredProcs;
      RoundStart(dp, psi, start, all, n0, pending0, log0, unmatched0);
      rs, i := start, 0;
      unmatched, calls := unmatched0, [];
      ghost var o := RunFrom(start, 0, claims);
      while |unmatched| > 0 && psi.HasNext()
        invariant discoveredProcs == dp
        invariant RoundProgress(dp, psi, rs, i, all, n0, pending0, log0, unmatched, calls)
        invariant RunFrom(rs, i, claims) == o
        decreases |all| - i
      {
        ProgressHasNext(dp, psi, rs, i, all, n0, pending0, log0, unmatched, calls);
        unmatched, calls := RoundTurn(psi, rs, i, all, n0, pending0, log0, unmatched, calls, claims);
        RunFromAdvance(rs, i, claims);
        rs, i := Step(rs, i, claims), i + 1;
      }
      ProgressHasNext(dp, psi, rs, i, all, n0, pending0, log0, unmatched, calls);
      assert o == RoundOutcome(rs, i);
    }

    /** discoverAndRunProcs: one round of matching the annotations present to
        processors, then the calls of the remaining contributors.  claims is
        what each processor's process method returns.  It answers the calls
        made in the loop, those made by runContributingProcs, and the
        annotations left unclaimed. */
    method DiscoverAndRunProcs(annotationsPresent: set<Text>, claims: (nat, set<Text>) -> CallOutcome)
      returns (calls: seq<Call>, contributing: seq<nat>, unmatchedAnnotations: set<Text>)
      requires discoveredProcs != null && discoveredProcs.log == log
      modifies this, discoveredProcs, log
      ensures discoveredProcs == old(discoveredProcs)
      ensures var dp := discoveredProcs;
        var n0 := |old(dp.procStateList)|;
        var all := old(dp.procStateList) + StatesOf(old(dp.pending));
        var o := RunFrom(RoundState(all, InitialUnmatched(annotationsPresent), old(unmatchedProcessorOptions), []), 0, claims);
        var listed := Max(o.visited, n0);
        calls == o.final.calls
        && unmatchedAnnotations == o.final.unmatched - {""}
        && unmatchedProcessorOptions == o.final.unmatchedOptions
        && dp.procStateList == o.final.states[..listed]
        && dp.pending == old(dp.pending)[listed - n0..]
        && contributing == (if o.visited <= n0 then ContributingFrom(dp.procStateList, o.visited) else [])
        && log.entries == old(log.entries) + RoundLog(StateLogs(old(dp.pending)), n0, calls, o.visited)
             + (if lint && unmatchedAnnotations - PlatformAnnotations != {}
                then [LogEntry(Warning, "proc.annotations.without.processors", [])] else [])
             + (if o.visited <= n0 then ContributingLog(dp.procStateList, o.visited, claims) else [])
    {
      var psi, unmatched;
      ghost var o;
      psi, unmatched, calls, o := MatchAnnotations(InitialUnmatched(annotationsPresent), claims);
      unmatchedAnnotations := unmatched - {""};
      ghost var dp := discoveredProcs;
      ghost var n0 := |old(dp.procStateList)|;
      ghost var afterRound := log.entries;
      ghost var warning: seq<LogEntry> := if lint && unmatchedAnnotations - PlatformAnnotations != {}
                                          then [LogEntry(Warning, "proc.annotations.without.processors", [])] else [];
      if lint && unmatchedAnnotations - PlatformAnnotations != {} {
        log.Report(LogEntry(Warning, "proc.annotations.without.processors", []));
      }
      assert log.entries == afterRound + warning;
      ghost var contributed := if o.visited <= n0 then ContributingLog(dp.procStateList, o.visited, claims) else [];
      contributing := psi.RunContributingProcs(claims);
      assert log.entries == afterRound + warning + contributed;
    }
  }
}

/** The processor states of annotation processing and one round of
    matching annotations to processors (the loop of
    JavacProcessingEnvironment.discoverAndRunProcs), as functions on values.
    What a processor reports about itself and what its process method
    returns are oracles. */
module ProcessingRound {
  import opened Wrappers
  import opened JavaText
  import opened ProcessingPatterns
  import opened ProcessingOptions

  /** What the tool learns from a processor: whether init fails, whether its
      supported source version is older than the compilation's, and the
      strings it returns for its supported annotation types and options. */
  datatype Processor = Processor(
    id: nat,
    initFails: bool,
    olderSourceVersion: bool,
    supportedAnnotationTypes: seq<Text>,
    supportedOptions: seq<Text>)

  datatype Severity = Error | Warning

  /** A logged diagnostic: its severity, key and arguments. */
  datatype LogEntry = LogEntry(severity: Severity, key: Text, args: seq<Text>)

  /** ProcessorState: the processor, whether it has contributed in an
      earlier round, whether its initialization failed, its supported
      annotation patterns and its valid supported option names. */
  datatype ProcessorState = ProcessorState(
    processor: Processor,
    contributed: bool,
    invalid: bool,
    patterns: seq<Pattern>,
    optionNames: seq<Text>)

  /** The patterns of the supported annotation strings, in order. */
  function PatternsOf(types: seq<Text>): seq<Pattern> {
    seq(|types|, i requires 0 <= i < |types| => ImportStringToPatternCorrected(types[i]))
  }

  /** For supported strings without "$", the patterns are those that
      importStringToPattern as written compiles. */
  lemma PatternsAgreeWithoutDollar(types: seq<Text>)
    requires forall i :: 0 <= i < |types| ==> '$' !in types[i]
    ensures |PatternsOf(types)| == |types|
    ensures forall i :: 0 <= i < |types| ==> PatternsOf(types)[i] == ImportStringToPattern(types[i])
  {
    forall i | 0 <= i < |types|
      ensures PatternsOf(types)[i] == ImportStringToPattern(types[i])
    {
      AsWrittenAgreesWithoutDollar(types[i]);
    }
  }

  /** The supported option names that pass checkOptionName, in order. */
  function ValidOptionNames(names: seq<Text>): (r: seq<Text>)
    ensures forall k :: 0 <= k < |r| ==> IsValidOptionName(r[k]) && r[k] in names
    ensures forall n :: n in names && IsValidOptionName(n) ==> n in r
  {
    if |names| == 0 then []
    else
      var init := names[..|names| - 1];
      var last := names[|names| - 1];
      var before := ValidOptionNames(init);
      assert names == init + [last];
      if IsValidOptionName(last) then before + [last] else before
  }

  /** One entry of the given severity and key, with the string as its
      argument, for each string of the list that fails the test, in order. */
  function FailureLog(xs: seq<Text>, ok: Text -> bool, severity: Severity, key: Text): (r: seq<LogEntry>)
    ensures forall k :: 0 <= k < |r| ==>
      r[k].severity == severity && r[k].key == key && |r[k].args| == 1
      && r[k].args[0] in xs && !ok(r[k].args[0])
  {
    if |xs| == 0 then []
    else
      var init := xs[..|xs| - 1];
      var last := xs[|xs| - 1];
      var before := FailureLog(init, ok, severity, key);
      assert xs == init + [last];
      if ok(last) then before else before + [LogEntry(severity, key, [last])]
  }

  /** How many strings of the list fail the test. */
  function CountFailing(xs: seq<Text>, ok: Text -> bool): (n: nat)
    ensures n <= |xs|
  {
    if |xs| == 0 then 0 else CountFailing(xs[..|xs| - 1], ok) + (if ok(xs[|xs| - 1]) then 0 else 1)
  }

  /** The log has exactly one entry per failing string, in the order of the
      strings: the failing string at index i gets the entry with as many
      entries before it as there are failing strings before i. */
  lemma {:induction false} FailureLogInOrder(xs: seq<Text>, ok: Text -> bool, severity: Severity, key: Text)
    ensures |FailureLog(xs, ok, severity, key)| == CountFailing(xs, ok)
    ensures forall i :: 0 <= i < |xs| && !ok(xs[i]) ==>
      CountFailing(xs[..i], ok) < |FailureLog(xs, ok, severity, key)|
      && FailureLog(xs, ok, severity, key)[CountFailing(xs[..i], ok)] == LogEntry(severity, key, [xs[i]])
  {
    if |xs| > 0 {
      var n := |xs| - 1;
      var init := xs[..n];
      FailureLogInOrder(init, ok, severity, key);
      var before := FailureLog(init, ok, severity, key);
      var log := FailureLog(xs, ok, severity, key);
      assert log == if ok(xs[n]) then before else before + [LogEntry(severity, key, [xs[n]])];
      forall i | 0 <= i < |xs| && !ok(xs[i])
        ensures CountFailing(xs[..i], ok) < |log| && log[CountFailing(xs[..i], ok)] == LogEntry(severity, key, [xs[i]])
      {
        if i < n {
          assert xs[..i] == init[..i] && xs[i] == init[i];
          assert log[CountFailing(xs[..i], ok)] == before[CountFailing(init[..i], ok)];
        } else {
          assert xs[..i] == init;
        }
      }
    }
  }

  /** The warning importStringToPattern logs for each malformed string, in order. */
  function MalformedWarnings(types: seq<Text>): (r: seq<LogEntry>)
    ensures forall k :: 0 <= k < |r| ==>
      r[k].key == "proc.malformed.supported.string" && |r[k].args| == 1
      && r[k].args[0] in types && !ValidImportString(r[k].args[0])
  {
    FailureLog(types, ValidImportString, Warning, "proc.malformed.supported.string")
  }

  /** The warnings are exactly one per malformed string, in the order of the
      strings. */
  lemma MalformedWarningsInOrder(types: seq<Text>)
    ensures |MalformedWarnings(types)| == CountFailing(types, ValidImportString)
    ensures forall i :: 0 <= i < |types| && !ValidImportString(types[i]) ==>
      CountFailing(types[..i], ValidImportString) < |MalformedWarnings(types)|
      && MalformedWarnings(types)[CountFailing(types[..i], ValidImportString)]
         == LogEntry(Warning, "proc.malformed.supported.string", [types[i]])
  {
    FailureLogInOrder(types, ValidImportString, Warning, "proc.malformed.supported.string");
  }

  /** The error checkOptionName logs for each invalid option name, in order. */
  function BadOptionErrors(names: seq<Text>): (r: seq<LogEntry>)
    ensures forall k :: 0 <= k < |r| ==>
      r[k].key == "proc.processor.bad.option.name" && |r[k].args| == 1
      && r[k].args[0] in names && !IsValidOptionName(r[k].args[0])
  {
    FailureLog(names, IsValidOptionName, Error, "proc.processor.bad.option.name")
  }

  /** The errors are exactly one per invalid option name, in the order of
      the names. */
  lemma BadOptionErrorsInOrder(names: seq<Text>)
    ensures |BadOptionErrors(names)| == CountFailing(names, IsValidOptionName)
    ensures forall i :: 0 <= i < |names| && !IsValidOptionName(names[i]) ==>
      CountFailing(names[..i], IsValidOptionName) < |BadOptionErrors(names)|
      && BadOptionErrors(names)[CountFailing(names[..i], IsValidOptionName)]
         == LogEntry(Error, "proc.processor.bad.option.name", [names[i]])
  {
    FailureLogInOrder(names, IsValidOptionName, Error, "proc.processor.bad.option.name");
  }

  /** The state the ProcessorState constructor builds. */
  function StateOf(p: Processor): ProcessorState {
    if p.initFails then ProcessorState(p, false, true, [], [])
    else ProcessorState(p, false, false, PatternsOf(p.supportedAnnotationTypes),
                        ValidOptionNames(p.supportedOptions))
  }

  /** What the ProcessorState constructor logs, in order. */
  function StateLog(p: Processor): seq<LogEntry> {
    if p.initFails then []
    else
      (if p.olderSourceVersion then [LogEntry(Warning, "proc.processor.incompatible.source.version", [])] else [])
      + MalformedWarnings(p.supportedAnnotationTypes)
      + BadOptionErrors(p.supportedOptions)
  }

  /** The states the processor iterator's processors get, in order. */
  function StatesOf(ps: seq<Processor>): (r: seq<ProcessorState>)
    ensures |r| == |ps|
  {
    if |ps| == 0 then [] else [StateOf(ps[0])] + StatesOf(ps[1..])
  }

  /** The state at index k is the state of the processor at index k. */
  lemma {:induction false} StatesOfAt(ps: seq<Processor>, k: nat)
    requires k < |ps|
    ensures StatesOf(ps)[k] == StateOf(ps[k])
  {
    if k > 0 {
      StatesOfAt(ps[1..], k - 1);
    }
  }

  /** What creating the state of each of the given processors logs. */
  function StateLogs(ps: seq<Processor>): (r: seq<seq<LogEntry>>)
    ensures |r| == |ps|
  {
    if |ps| == 0 then [] else [StateLog(ps[0])] + StateLogs(ps[1..])
  }

  /** Creating the state at index k logs what creating the state of the
      processor at index k logs. */
  lemma {:induction false} StateLogsAt(ps: seq<Processor>, k: nat)
    requires k < |ps|
    ensures StateLogs(ps)[k] == StateLog(ps[k])
  {
    if k > 0 {
      StateLogsAt(ps[1..], k - 1);
    }
  }

  /** What creating the first k of the states whose creation logs are
      given logs, in order. */
  function CreationLog(created: seq<seq<LogEntry>>, k: nat): seq<LogEntry>
    requires k <= |created|
  {
    if k == 0 then [] else CreationLog(created, k - 1) + created[k - 1]
  }

  /** annotationSupported: some supported pattern matches the name. */
  predicate Supports(ps: ProcessorState, name: Text) {
    exists i :: 0 <= i < |ps.patterns| && Matches(ps.patterns[i], name)
  }

  /** A processor supporting "*" supports every name, including the
      placeholder "" a round without annotations is seeded with. */
  lemma StarSupportsEverything(p: Processor, k: nat, name: Text)
    requires !p.initFails && k < |p.supportedAnnotationTypes|
    requires p.supportedAnnotationTypes[k] == "*"
    requires NoLineTerminator(name)
    ensures Supports(StateOf(p), name)
  {
    assert StateOf(p).patterns[k] == AllMatches;
  }

  /** removeSupportedOptions: the processor's option names are no longer unmatched. */
  function RemoveSupportedOptions(ps: ProcessorState, unmatched: set<OptionKey>): (r: set<OptionKey>)
    ensures r <= unmatched
    ensures forall n :: n in ps.optionNames ==> Some(n) !in r
    ensures forall k :: k in unmatched && (k.None? || k.value !in ps.optionNames) ==> k in r
  {
    unmatched - set n | n in ps.optionNames :: Some(n)
  }

  /** The annotations of a round that no processor has claimed yet, seeded
      with the placeholder "" when none is present, so that processors
      supporting "*" still get a chance to match. */
  function InitialUnmatched(annotationsPresent: set<Text>): (r: set<Text>)
    ensures annotationsPresent <= r
    ensures r - {""} == annotationsPresent - {""}
    ensures |r| > 0
  {
    if |annotationsPresent| == 0 then {""} else annotationsPresent
  }

  /** The names among the unmatched ones that a processor supports. */
  function MatchedNames(ps: ProcessorState, unmatched: set<Text>): set<Text> {
    set n | n in unmatched && Supports(ps, n)
  }

  /** How a processor's process method ends: it returns a boolean, it
      throws a CompletionFailure, or it throws anything else. */
  datatype CallOutcome = Returned(value: bool) | CompletionFailed | Crashed

  /** What callProcessor answers: the value process returned, and false
      when it threw. */
  function ProcessingResult(outcome: CallOutcome): (r: bool)
    ensures r <==> outcome == Returned(true)
  {
    match outcome
    case Returned(b) => b
    case _ => false
  }

  /** The error callProcessor logs when process throws a CompletionFailure. */
  const CantAccess: LogEntry := LogEntry(Error, "proc.cant.access", [])

  /** What callProcessor logs: the error for a CompletionFailure, nothing
      otherwise (any other exception only goes to the logging framework). */
  function CallProcessorLog(outcome: CallOutcome): (r: seq<LogEntry>)
    ensures r == [] || r == [CantAccess]
    ensures r == [CantAccess] <==> outcome.CompletionFailed?
  {
    if outcome.CompletionFailed? then [CantAccess] else []
  }

  /** One call of a processor: which state, the names it matched, the
      annotation elements passed (the matched names without the
      placeholder) and how process ended; `result` is what callProcessor
      answered. */
  datatype Call = Call(index: nat, matched: set<Text>, elements: set<Text>, outcome: CallOutcome) {
    const result: bool := ProcessingResult(outcome)
  }

  /** What the calls made on the state at index k logged, in call order. */
  function CallLogAt(calls: seq<Call>, k: nat): seq<LogEntry> {
    if |calls| == 0 then []
    else
      var last := calls[|calls| - 1];
      CallLogAt(calls[..|calls| - 1], k) + (if last.index == k then CallProcessorLog(last.outcome) else [])
  }

  /** What the first i turns of the round loop log, when the iterator
      starts with n0 cached states and created holds what creating the
      state of each processor still pending logs (StateLogs of them): each
      turn logs the creation of its state if the iterator had to create
      it, then what the call of its processor logged. */
  function RoundLog(created: seq<seq<LogEntry>>, n0: nat, calls: seq<Call>, i: nat): seq<LogEntry> {
    if i == 0 then []
    else RoundLog(created, n0, calls, i - 1) + TurnCreationLog(created, n0, i - 1) + CallLogAt(calls, i - 1)
  }

  /** What the iterator logs at turn k: the creation of the state at index
      k when that state is not among the n0 cached ones. */
  function TurnCreationLog(created: seq<seq<LogEntry>>, n0: nat, k: nat): seq<LogEntry> {
    if n0 <= k < n0 + |created| then created[k - n0] else []
  }

  /** Every call was made on a state before index k. */
  predicate CallsBefore(calls: seq<Call>, k: nat) {
    |calls| == 0 || (calls[|calls| - 1].index < k && CallsBefore(calls[..|calls| - 1], k))
  }

  /** CallsBefore says what its name says. */
  lemma {:induction false} CallsBeforeExact(calls: seq<Call>, k: nat)
    ensures CallsBefore(calls, k) <==> forall j :: 0 <= j < |calls| ==> calls[j].index < k
  {
    if |calls| > 0 {
      var init := calls[..|calls| - 1];
      CallsBeforeExact(init, k);
      assert forall j :: 0 <= j < |init| ==> init[j] == calls[j];
    }
  }

  /** Calls before turn k are calls before any later turn. */
  lemma {:induction false} CallsBeforeLater(calls: seq<Call>, k: nat, k': nat)
    requires CallsBefore(calls, k) && k <= k'
    ensures CallsBefore(calls, k')
  {
    if |calls| > 0 {
      CallsBeforeLater(calls[..|calls| - 1], k, k');
    }
  }

  /** No call made before turn k logged anything at turn k. */
  lemma {:induction false} CallLogAtBeyond(calls: seq<Call>, k: nat)
    requires CallsBefore(calls, k)
    ensures CallLogAt(calls, k) == []
  {
    if |calls| > 0 {
      CallLogAtBeyond(calls[..|calls| - 1], k);
    }
  }

  /** A call at turn i or later leaves the log of the turns before i alone. */
  lemma {:induction false} RoundLogLaterCall(created: seq<seq<LogEntry>>, n0: nat, calls: seq<Call>, c: Call, i: nat)
    requires c.index >= i
    ensures RoundLog(created, n0, calls + [c], i) == RoundLog(created, n0, calls, i)
  {
    if i > 0 {
      RoundLogLaterCall(created, n0, calls, c, i - 1);
      CallLogAtOther(calls, c, i - 1);
    }
  }

  /** A call on another state adds nothing to what the calls at k logged. */
  lemma CallLogAtOther(calls: seq<Call>, c: Call, k: nat)
    requires c.index != k
    ensures CallLogAt(calls + [c], k) == CallLogAt(calls, k)
  {
    var all := calls + [c];
    assert all[..|calls|] == calls;
    assert CallLogAt(all, k) == CallLogAt(calls, k) + [];
  }

  /** A turn that creates no call logs what creating its state logs. */
  lemma RoundLogFetch(created: seq<seq<LogEntry>>, n0: nat, calls: seq<Call>, i: nat)
    requires CallsBefore(calls, i)
    ensures RoundLog(created, n0, calls, i + 1)
      == RoundLog(created, n0, calls, i) + TurnCreationLog(created, n0, i)
  {
    CallLogAtBeyond(calls, i);
  }

  /** The call of turn i appends what callProcessor logged to that turn. */
  lemma RoundLogCall(created: seq<seq<LogEntry>>, n0: nat, calls: seq<Call>, c: Call, i: nat)
    requires CallsBefore(calls, i + 1)
    requires c.index == i
    ensures RoundLog(created, n0, calls + [c], i + 1) == RoundLog(created, n0, calls, i + 1) + CallProcessorLog(c.outcome)
  {
    RoundLogLaterCall(created, n0, calls, c, i);
    assert (calls + [c])[..|calls|] == calls;
  }

  /** When no processor throws a CompletionFailure, the round logs only
      what creating its new states logs. */
  lemma RoundLogWithoutFailures(created: seq<seq<LogEntry>>, n0: nat, calls: seq<Call>, i: nat)
    requires i <= n0 + |created|
    requires forall j :: 0 <= j < |calls| ==> !calls[j].outcome.CompletionFailed?
    ensures RoundLog(created, n0, calls, i) == if i <= n0 then [] else CreationLog(created, i - n0)
  {
    if i <= n0 {
      RoundLogCached(created, n0, calls, i);
    } else {
      RoundLogCreated(created, n0, calls, i - n0);
    }
  }

  /** A turn whose calls throw no CompletionFailure logs only the creation
      of its state. */
  lemma RoundLogQuietTurn(created: seq<seq<LogEntry>>, n0: nat, calls: seq<Call>, i: nat)
    requires forall j :: 0 <= j < |calls| ==> !calls[j].outcome.CompletionFailed?
    ensures RoundLog(created, n0, calls, i + 1) == RoundLog(created, n0, calls, i) + TurnCreationLog(created, n0, i)
  {
    CallLogAtQuiet(calls, i);
  }

  /** The turns on the cached states log nothing when no call fails. */
  lemma {:induction false} RoundLogCached(created: seq<seq<LogEntry>>, n0: nat, calls: seq<Call>, i: nat)
    requires i <= n0
    requires forall j :: 0 <= j < |calls| ==> !calls[j].outcome.CompletionFailed?
    ensures RoundLog(created, n0, calls, i) == []
  {
    if i > 0 {
      RoundLogCached(created, n0, calls, i - 1);
      RoundLogQuietTurn(created, n0, calls, i - 1);
    }
  }

  /** The turns that create the first k new states log what creating them
      logs when no call fails. */
  lemma {:induction false} RoundLogCreated(created: seq<seq<LogEntry>>, n0: nat, calls: seq<Call>, k: nat)
    requires k <= |created|
    requires forall j :: 0 <= j < |calls| ==> !calls[j].outcome.CompletionFailed?
    ensures RoundLog(created, n0, calls, n0 + k) == CreationLog(created, k)
  {
    if k == 0 {
      RoundLogCached(created, n0, calls, n0);
    } else {
      RoundLogCreated(created, n0, calls, k - 1);
      RoundLogQuietTurn(created, n0, calls, n0 + k - 1);
    }
  }

  /** Calls that do not throw a CompletionFailure log nothing. */
  lemma {:induction false} CallLogAtQuiet(calls: seq<Call>, k: nat)
    requires forall j :: 0 <= j < |calls| ==> !calls[j].outcome.CompletionFailed?
    ensures CallLogAt(calls, k) == []
  {
    if |calls| > 0 {
      CallLogAtQuiet(calls[..|calls| - 1], k);
    }
  }

  /** Every CompletionFailure a call at turn k throws logs one error. */
  lemma {:induction false} CallLogAtCounts(calls: seq<Call>, k: nat)
    ensures |CallLogAt(calls, k)| == |set j | 0 <= j < |calls| && calls[j].index == k && calls[j].outcome.CompletionFailed?|
  {
    if |calls| > 0 {
      var n := |calls| - 1;
      var init, last := calls[..n], calls[n];
      CallLogAtCounts(init, k);
      assert CallLogAt(calls, k) == CallLogAt(init, k) + (if last.index == k then CallProcessorLog(last.outcome) else []);
      var before := set j | 0 <= j < n && init[j].index == k && init[j].outcome.CompletionFailed?;
      var after := set j | 0 <= j < |calls| && calls[j].index == k && calls[j].outcome.CompletionFailed?;
      assert forall j :: 0 <= j < n ==> init[j] == calls[j];
      if last.index == k && last.outcome.CompletionFailed? {
        assert after == before + {n};
        assert n !in before;
      } else {
        assert after == before;
      }
    }
  }

  /** The calls at turn k log nothing but the CompletionFailure error. */
  lemma {:induction false} CallLogAtEntries(calls: seq<Call>, k: nat)
    ensures forall e :: e in CallLogAt(calls, k) ==> e == CantAccess
  {
    if |calls| > 0 {
      CallLogAtEntries(calls[..|calls| - 1], k);
    }
  }

  /** The state of a round: the processor states, the unmatched annotation
      names, the unmatched processor options, and the calls made so far. */
  datatype RoundState = RoundState(
    states: seq<ProcessorState>,
    unmatched: set<Text>,
    unmatchedOptions: set<OptionKey>,
    calls: seq<Call>)

  /** One iteration of the round loop, on the state at index i: an invalid
      state is skipped; otherwise the processor is called when it matches an
      unmatched name or has contributed before, becomes a contributor,
      removes its options from the unmatched ones, and, when it returns
      true, claims the names it matched. */
  function Step(rs: RoundState, i: nat, claims: (nat, set<Text>) -> CallOutcome): RoundState
    requires i < |rs.states|
  {
    var ps := rs.states[i];
    if ps.invalid then rs
    else
      var matched := MatchedNames(ps, rs.unmatched);
      if |matched| > 0 || ps.contributed then
        var elements := matched - {""};
        var outcome := claims(ps.processor.id, elements);
        RoundState(
          rs.states[i := ps.(contributed := true)],
          if ProcessingResult(outcome) then rs.unmatched - matched else rs.unmatched,
          RemoveSupportedOptions(ps, rs.unmatchedOptions),
          rs.calls + [Call(i, matched, elements, outcome)])
      else rs
  }

  /** The call the iteration at index i makes, if any. */
  function StepCall(rs: RoundState, i: nat, claims: (nat, set<Text>) -> CallOutcome): Option<Call>
    requires i < |rs.states|
  {
    var ps := rs.states[i];
    var matched := MatchedNames(ps, rs.unmatched);
    if !ps.invalid && (|matched| > 0 || ps.contributed) then
      Some(Call(i, matched, matched - {""}, claims(ps.processor.id, matched - {""})))
    else None
  }

  /** The effect of one iteration, in terms of the call it makes. */
  lemma StepShape(rs: RoundState, i: nat, claims: (nat, set<Text>) -> CallOutcome)
    requires i < |rs.states|
    ensures var next := Step(rs, i, claims);
      match StepCall(rs, i, claims)
      case None => next == rs
      case Some(c) =>
        c.index == i
        && next.calls == rs.calls + [c]
        && next.states == rs.states[i := rs.states[i].(contributed := true)]
        && next.unmatched == rs.unmatched - (if c.result then c.matched else {})
        && !rs.states[i].invalid
        && c.matched <= rs.unmatched
        && (forall n :: n in c.matched ==> Supports(rs.states[i], n))
        && c.elements == c.matched - {""}
        && (c.matched != {} || rs.states[i].contributed)
  {
  }

  datatype RoundOutcome = RoundOutcome(final: RoundState, visited: nat)

  /** The loop: steps through the states from index i while some name is
      unmatched and states remain; visited is where it stopped. */
  function RunFrom(rs: RoundState, i: nat, claims: (nat, set<Text>) -> CallOutcome): (o: RoundOutcome)
    requires i <= |rs.states|
    ensures |o.final.states| == |rs.states|
    ensures i <= o.visited <= |rs.states|
    ensures o.visited == |rs.states| || o.final.unmatched == {}
    decreases |rs.states| - i
  {
    if i == |rs.states| || |rs.unmatched| == 0 then RoundOutcome(rs, i)
    else RunFrom(Step(rs, i, claims), i + 1, claims)
  }

  /** One turn of the loop does not change where the run ends. */
  lemma RunFromAdvance(rs: RoundState, i: nat, claims: (nat, set<Text>) -> CallOutcome)
    requires i < |rs.states| && |rs.unmatched| > 0
    ensures RunFrom(Step(rs, i, claims), i + 1, claims) == RunFrom(rs, i, claims)
  {
  }

  /** The names claimed by the calls that returned true. */
  function Claimed(calls: seq<Call>): set<Text> {
    set k, n | 0 <= k < |calls| && calls[k].result && n in calls[k].matched :: n
  }

  /** The calls of a run extend those made before it. */
  lemma {:induction false} RunFromExtendsCalls(rs: RoundState, i: nat, claims: (nat, set<Text>) -> CallOutcome)
    requires i <= |rs.states|
    ensures var o := RunFrom(rs, i, claims);
      |rs.calls| <= |o.final.calls| && o.final.calls[..|rs.calls|] == rs.calls
    decreases |rs.states| - i
  {
    if i < |rs.states| && |rs.unmatched| > 0 {
      var next := Step(rs, i, claims);
      RunFromExtendsCalls(next, i + 1, claims);
      assert next.calls[..|rs.calls|] == rs.calls;
    }
  }

  /** A name stops being unmatched exactly when a call that returned true
      matched it. */
  lemma {:induction false} RunFromUnmatched(rs: RoundState, i: nat, claims: (nat, set<Text>) -> CallOutcome)
    requires i <= |rs.states|
    ensures var o := RunFrom(rs, i, claims);
      |rs.calls| <= |o.final.calls|
      && o.final.unmatched == rs.unmatched - Claimed(o.final.calls[|rs.calls|..])
    decreases |rs.states| - i
  {
    RunFromExtendsCalls(rs, i, claims);
    var o := RunFrom(rs, i, claims);
    if i < |rs.states| && |rs.unmatched| > 0 {
      var next := Step(rs, i, claims);
      RunFromAdvance(rs, i, claims);
      RunFromUnmatched(next, i + 1, claims);
      RunFromExtendsCalls(next, i + 1, claims);
      UnmatchedStep(rs, i, claims, o.final);
    } else {
      assert o.final.calls[|rs.calls|..] == [];
      UnmatchedNone(rs.unmatched);
    }
  }

  /** The induction step of RunFromUnmatched: what holds of the run from
      the next turn on holds of the run from this one. */
  lemma UnmatchedStep(rs: RoundState, i: nat, claims: (nat, set<Text>) -> CallOutcome, final: RoundState)
    requires i < |rs.states|
    requires var next := Step(rs, i, claims);
      |next.calls| <= |final.calls| && final.calls[..|next.calls|] == next.calls
      && final.unmatched == next.unmatched - Claimed(final.calls[|next.calls|..])
    ensures |rs.calls| <= |final.calls| && final.unmatched == rs.unmatched - Claimed(final.calls[|rs.calls|..])
  {
    var next := Step(rs, i, claims);
    StepRecord(rs, i, claims);
    match StepCall(rs, i, claims)
    case None =>
    case Some(c) =>
      SliceCons(final.calls, rs.calls, c);
      UnmatchedCons(rs.unmatched, c, final.calls[|next.calls|..], final.calls[|rs.calls|..]);
  }

  /** What follows a prefix and one more element. */
  lemma SliceCons<T>(s: seq<T>, prefix: seq<T>, c: T)
    requires |prefix| + 1 <= |s| && s[..|prefix| + 1] == prefix + [c]
    ensures s[|prefix|..] == [c] + s[|prefix| + 1..]
  {
    assert s[|prefix|] == (prefix + [c])[|prefix|];
  }

  /** The calls and the unmatched names after one turn. */
  lemma StepRecord(rs: RoundState, i: nat, claims: (nat, set<Text>) -> CallOutcome)
    requires i < |rs.states|
    ensures var next := Step(rs, i, claims);
      var c := StepCall(rs, i, claims);
      (c.None? ==> next == rs)
      && (c.Some? ==>
            c.value.index == i
            && next.calls == rs.calls + [c.value]
            && next.states == rs.states[i := rs.states[i].(contributed := true)]
            && next.unmatched == rs.unmatched - (if c.value.result then c.value.matched else {}))
  {
  }

  /** A call that claims its names, followed by more calls. */
  lemma UnmatchedCons(a: set<Text>, c: Call, later: seq<Call>, tail: seq<Call>)
    requires tail == [c] + later
    ensures a - (if c.result then c.matched else {}) - Claimed(later) == a - Claimed(tail)
  {
    ClaimedConcat([c], later);
    ClaimedSingle(c);
  }

  lemma UnmatchedNone(a: set<Text>)
    ensures a - Claimed([]) == a
  {
    assert Claimed([]) == {};
  }

  lemma ClaimedSingle(c: Call)
    ensures Claimed([c]) == if c.result then c.matched else {}
  {
    if c.result {
      forall n | n in c.matched ensures n in Claimed([c]) {
        assert [c][0] == c;
      }
    }
  }

  lemma ClaimedConcat(a: seq<Call>, b: seq<Call>)
    ensures Claimed(a + b) == Claimed(a) + Claimed(b)
  {
    var ab := a + b;
    forall n | n in Claimed(ab) ensures n in Claimed(a) + Claimed(b) {
      var k :| 0 <= k < |ab| && ab[k].result && n in ab[k].matched;
      if k < |a| { assert ab[k] == a[k]; } else { assert ab[k] == b[k - |a|]; }
    }
    forall n | n in Claimed(a) ensures n in Claimed(ab) {
      var k :| 0 <= k < |a| && a[k].result && n in a[k].matched;
      assert ab[k] == a[k];
    }
    forall n | n in Claimed(b) ensures n in Claimed(ab) {
      var k :| 0 <= k < |b| && b[k].result && n in b[k].matched;
      assert ab[k + |a|] == b[k];
    }
  }

  /** What every call of a round satisfies, relative to the states the
      round started from and the names it was seeded with. */
  ghost predicate CallOk(c: Call, start: seq<ProcessorState>, seed: set<Text>) {
    c.index < |start|
    && !start[c.index].invalid
    && c.matched <= seed
    && (forall n :: n in c.matched ==> Supports(start[c.index], n))
    && c.elements == c.matched - {""}
    && (c.matched != {} || start[c.index].contributed)
  }

  /** The states not yet visited are the original ones. */
  ghost predicate Untouched(rs: RoundState, i: nat, start: seq<ProcessorState>) {
    |rs.states| == |start| && forall j :: i <= j < |start| ==> rs.states[j] == start[j]
  }

  /** Every call is of a valid processor, passes only names it supports and
      that were unmatched, and happens only when the processor matched a
      name or had contributed before. */
  lemma {:induction false} RunFromCallsOk(rs: RoundState, i: nat, claims: (nat, set<Text>) -> CallOutcome,
                                          start: seq<ProcessorState>, seed: set<Text>)
    requires i <= |rs.states|
    requires Untouched(rs, i, start) && rs.unmatched <= seed
    ensures var o := RunFrom(rs, i, claims);
      |rs.calls| <= |o.final.calls|
      && forall k :: |rs.calls| <= k < |o.final.calls| ==> CallOk(o.final.calls[k], start, seed)
    decreases |rs.states| - i
  {
    RunFromExtendsCalls(rs, i, claims);
    if i < |rs.states| && |rs.unmatched| > 0 {
      var next := Step(rs, i, claims);
      UntouchedStep(rs, i, claims, start);
      RunFromAdvance(rs, i, claims);
      RunFromCallsOk(next, i + 1, claims, start, seed);
      RunFromExtendsCalls(next, i + 1, claims);
      CallsOkStep(rs, i, claims, RunFrom(rs, i, claims).final, start, seed);
    }
  }

  /** One turn keeps the states after it as they were, and only removes
      unmatched names. */
  lemma UntouchedStep(rs: RoundState, i: nat, claims: (nat, set<Text>) -> CallOutcome, start: seq<ProcessorState>)
    requires i < |rs.states| && Untouched(rs, i, start)
    ensures Untouched(Step(rs, i, claims), i + 1, start) && Step(rs, i, claims).unmatched <= rs.unmatched
  {
    StepRecord(rs, i, claims);
  }

  /** The induction step of RunFromCallsOk. */
  lemma CallsOkStep(rs: RoundState, i: nat, claims: (nat, set<Text>) -> CallOutcome, final: RoundState,
                    start: seq<ProcessorState>, seed: set<Text>)
    requires i < |rs.states| && Untouched(rs, i, start) && rs.unmatched <= seed
    requires var next := Step(rs, i, claims);
      |next.calls| <= |final.calls| && final.calls[..|next.calls|] == next.calls
      && forall k :: |next.calls| <= k < |final.calls| ==> CallOk(final.calls[k], start, seed)
    ensures |rs.calls| <= |final.calls| && forall k :: |rs.calls| <= k < |final.calls| ==> CallOk(final.calls[k], start, seed)
  {
    var next := Step(rs, i, claims);
    StepShape(rs, i, claims);
    match StepCall(rs, i, claims)
    case None =>
    case Some(c) =>
      assert final.calls[|rs.calls|] == next.calls[|rs.calls|] == c;
      assert CallOk(c, start, seed);
  }

  /** Some call from position from on is of the state at index j. */
  predicate CalledFrom(calls: seq<Call>, from: nat, j: nat) {
    exists k :: from <= k < |calls| && calls[k].index == j
  }

  /** The calls of a run are of states between its start and where it stopped. */
  lemma {:induction false} RunFromCalledRange(rs: RoundState, i: nat, claims: (nat, set<Text>) -> CallOutcome)
    requires i <= |rs.states|
    ensures var o := RunFrom(rs, i, claims);
      |rs.calls| <= |o.final.calls|
      && forall k :: |rs.calls| <= k < |o.final.calls| ==> i <= o.final.calls[k].index < o.visited
    decreases |rs.states| - i
  {
    RunFromExtendsCalls(rs, i, claims);
    if i < |rs.states| && |rs.unmatched| > 0 {
      var next := Step(rs, i, claims);
      StepShape(rs, i, claims);
      RunFromCalledRange(next, i + 1, claims);
      RunFromExtendsCalls(next, i + 1, claims);
      var o := RunFrom(rs, i, claims);
      assert o == RunFrom(next, i + 1, claims);
      match StepCall(rs, i, claims)
      case None =>
      case Some(c) =>
        assert o.final.calls[|rs.calls|] == c;
    }
  }

  /** After the round a state has become a contributor exactly when it was
      called; nothing else about the states changes. */
  lemma {:induction false} RunFromStates(rs: RoundState, i: nat, claims: (nat, set<Text>) -> CallOutcome, j: nat)
    requires i <= |rs.states| && j < |rs.states|
    ensures var o := RunFrom(rs, i, claims);
      |rs.calls| <= |o.final.calls|
      && o.final.states[j] ==
           if CalledFrom(o.final.calls, |rs.calls|, j) then rs.states[j].(contributed := true) else rs.states[j]
    decreases |rs.states| - i
  {
    if i < |rs.states| && |rs.unmatched| > 0 {
      RunFromStates(Step(rs, i, claims), i + 1, claims, j);
      RunFromStatesAdvance(rs, i, claims, j);
    } else {
      RunFromExtendsCalls(rs, i, claims);
      assert !CalledFrom(RunFrom(rs, i, claims).final.calls, |rs.calls|, j);
    }
  }

  /** The induction step of RunFromStates, from the turn after i. */
  lemma RunFromStatesAdvance(rs: RoundState, i: nat, claims: (nat, set<Text>) -> CallOutcome, j: nat)
    requires i < |rs.states| && |rs.unmatched| > 0 && j < |rs.states|
    requires var next := Step(rs, i, claims);
      var o := RunFrom(next, i + 1, claims);
      |next.states| == |rs.states|
      && o.final.states[j] ==
           if CalledFrom(o.final.calls, |next.calls|, j) then next.states[j].(contributed := true) else next.states[j]
    ensures var o := RunFrom(rs, i, claims);
      |rs.calls| <= |o.final.calls|
      && o.final.states[j] ==
           if CalledFrom(o.final.calls, |rs.calls|, j) then rs.states[j].(contributed := true) else rs.states[j]
  {
    var next := Step(rs, i, claims);
    var o := RunFrom(rs, i, claims);
    RunFromAdvance(rs, i, claims);
    assert o == RunFrom(next, i + 1, claims);
    StepRecord(rs, i, claims);
    RunFromExtendsCalls(next, i + 1, claims);
    RunFromCalledRange(next, i + 1, claims);
    StatesStep(rs, i, claims, o.final, j);
  }

  /** The induction step of RunFromStates. */
  lemma StatesStep(rs: RoundState, i: nat, claims: (nat, set<Text>) -> CallOutcome, final: RoundState, j: nat)
    requires i < |rs.states| && j < |rs.states| && |final.states| == |rs.states|
    requires var next := Step(rs, i, claims);
      |next.states| == |rs.states| && |next.calls| <= |final.calls| && final.calls[..|next.calls|] == next.calls
      && (forall k :: |next.calls| <= k < |final.calls| ==> i + 1 <= final.calls[k].index)
      && final.states[j] ==
           if CalledFrom(final.calls, |next.calls|, j) then next.states[j].(contributed := true) else next.states[j]
    ensures |rs.calls| <= |final.calls|
      && final.states[j] ==
           if CalledFrom(final.calls, |rs.calls|, j) then rs.states[j].(contributed := true) else rs.states[j]
  {
    var next := Step(rs, i, claims);
    StepRecord(rs, i, claims);
    match StepCall(rs, i, claims)
    case None =>
    case Some(c) =>
      assert final.calls[|rs.calls|] == next.calls[|rs.calls|] == c;
      if j == i {
        assert CalledFrom(final.calls, |rs.calls|, j);
        assert !CalledFrom(final.calls, |next.calls|, j);
      } else {
        assert CalledFrom(final.calls, |rs.calls|, j) == CalledFrom(final.calls, |next.calls|, j);
      }
  }

  /** A valid contributor from an earlier round that the loop reaches is
      always called. */
  lemma {:induction false} RunFromCallsContributors(rs: RoundState, i: nat, claims: (nat, set<Text>) -> CallOutcome,
                                                    start: seq<ProcessorState>, j: nat)
    requires i <= |rs.states|
    requires Untouched(rs, i, start)
    requires i <= j < RunFrom(rs, i, claims).visited && !start[j].invalid && start[j].contributed
    ensures var o := RunFrom(rs, i, claims);
      |rs.calls| <= |o.final.calls| && CalledFrom(o.final.calls, |rs.calls|, j)
    decreases |rs.states| - i
  {
    RunFromExtendsCalls(rs, i, claims);
    var next := Step(rs, i, claims);
    RunFromAdvance(rs, i, claims);
    RunFromExtendsCalls(next, i + 1, claims);
    if j > i {
      UntouchedStep(rs, i, claims, start);
      RunFromCallsContributors(next, i + 1, claims, start, j);
    }
    ContributorsStep(rs, i, claims, RunFrom(rs, i, claims).final, start, j);
  }

  /** The induction step of RunFromCallsContributors. */
  lemma ContributorsStep(rs: RoundState, i: nat, claims: (nat, set<Text>) -> CallOutcome, final: RoundState,
                         start: seq<ProcessorState>, j: nat)
    requires i <= j < |rs.states| && Untouched(rs, i, start) && !start[j].invalid && start[j].contributed
    requires var next := Step(rs, i, claims);
      |next.calls| <= |final.calls| && final.calls[..|next.calls|] == next.calls
      && (j > i ==> CalledFrom(final.calls, |next.calls|, j))
    ensures |rs.calls| <= |final.calls| && CalledFrom(final.calls, |rs.calls|, j)
  {
    var next := Step(rs, i, claims);
    StepRecord(rs, i, claims);
    if j == i {
      assert rs.states[i] == start[i];
      var c := StepCall(rs, i, claims).value;
      assert final.calls[|rs.calls|] == next.calls[|rs.calls|] == c;
    } else {
      var k :| |next.calls| <= k < |final.calls| && final.calls[k].index == j;
    }
  }

  /** The calls runContributingProcs makes: the states from index from on
      that are valid and have contributed, in order. */
  function ContributingFrom(states: seq<ProcessorState>, from: nat): (r: seq<nat>)
    requires from <= |states|
    ensures forall k :: 0 <= k < |r| ==> from <= r[k] < |states|
    decreases |states| - from
  {
    if from == |states| then []
    else
      var rest := ContributingFrom(states, from + 1);
      if !states[from].invalid && states[from].contributed then [from] + rest else rest
  }

  /** The indices listed are exactly the valid contributors from the given
      index on. */
  lemma {:induction false} ContributingFromExact(states: seq<ProcessorState>, from: nat)
    requires from <= |states|
    ensures var r := ContributingFrom(states, from);
      (forall k :: 0 <= k < |r| ==> from <= r[k] < |states| && !states[r[k]].invalid && states[r[k]].contributed)
      && forall j :: from <= j < |states| && !states[j].invalid && states[j].contributed ==> j in r
    decreases |states| - from
  {
    if from < |states| {
      ContributingFromExact(states, from + 1);
    }
  }

  /** What the calls of runContributingProcs log, in order: each valid
      contributor from index from on is called with no annotation elements. */
  function ContributingLog(states: seq<ProcessorState>, from: nat, claims: (nat, set<Text>) -> CallOutcome): seq<LogEntry>
    requires from <= |states|
    decreases |states| - from
  {
    if from == |states| then []
    else
      var rest := ContributingLog(states, from + 1, claims);
      if !states[from].invalid && states[from].contributed
      then CallProcessorLog(claims(states[from].processor.id, {})) + rest
      else rest
  }

  /** runContributingProcs logs only errors for calls that throw a
      CompletionFailure, at most one per call. */
  lemma {:induction false} ContributingLogEntries(states: seq<ProcessorState>, from: nat, claims: (nat, set<Text>) -> CallOutcome)
    requires from <= |states|
    ensures var r := ContributingLog(states, from, claims);
      && (forall e :: e in r ==> e == CantAccess)
      && |r| <= |ContributingFrom(states, from)|
    decreases |states| - from
  {
    if from < |states| {
      ContributingLogEntries(states, from + 1, claims);
    }
  }

  /** runContributingProcs logs something exactly when the call of one of
      the valid contributors from index from on throws a CompletionFailure. */
  lemma {:induction false} ContributingLogFailures(states: seq<ProcessorState>, from: nat, claims: (nat, set<Text>) -> CallOutcome)
    requires from <= |states|
    ensures ContributingLog(states, from, claims) == []
      <==> forall j :: from <= j < |states| && !states[j].invalid && states[j].contributed
             ==> !claims(states[j].processor.id, {}).CompletionFailed?
    decreases |states| - from
  {
    if from < |states| {
      ContributingLogFailures(states, from + 1, claims);
    }
  }

  /** Annotations implicitly processed and claimed by the compiler. */
  const PlatformAnnotations: set<Text> := {
    "java.lang.Deprecated", "java.lang.Override", "java.lang.SuppressWarnings",
    "java.lang.annotation.Documented", "java.lang.annotation.Inherited",
    "java.lang.annotation.Retention", "java.lang.annotation.Target"
  }
}

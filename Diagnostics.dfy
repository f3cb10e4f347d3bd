/** The diagnostic value object of the compiler (JCDiagnostic): an immutable
    record of a diagnostic type, a mandatory flag, an optional source and
    position, a qualified message key and its arguments, with the line and
    column computed once at construction.  Message localization and
    formatting are not part of this model: arguments are uninterpreted handles. */
module Diagnostics {
  import opened Wrappers
  import opened JavaText

  /** Position.NOPOS: "no position". */
  const NOPOS: int := -1

  /** The prefix of the context-wide diagnostic factory. */
  const DefaultPrefix: Text := "compiler"

  /** A syntax tree node, identified by a handle. */
  type TreeId = nat

  /** An argument of a diagnostic message (kept abstract). */
  type Arg = nat

  datatype DiagnosticType = FRAGMENT | NOTE | WARNING | ERROR

  /** DiagnosticType.key: the resource-key segment of each type. */
  function TypeKey(t: DiagnosticType): (k: Text)
    ensures |k| > 0
  {
    match t
    case FRAGMENT => "misc"
    case NOTE => "note"
    case WARNING => "warn"
    case ERROR => "err"
  }

  /** javax.tools.Diagnostic.Kind. */
  datatype Kind = ErrorKind | WarningKind | MandatoryWarningKind | NoteKind | OtherKind

  /** A DiagnosticPosition: either a SimpleDiagnosticPosition, which names one
      offset and no tree, or a tree node with its own start and preferred
      positions. */
  datatype DiagnosticPosition =
    | SimplePosition(pos: int)
    | TreePosition(tree: TreeId, start: int, preferred: int)

  function PositionTree(p: DiagnosticPosition): Option<TreeId> {
    match p
    case SimplePosition(_) => None
    case TreePosition(t, _, _) => Some(t)
  }

  function StartOf(p: DiagnosticPosition): int {
    match p
    case SimplePosition(pos) => pos
    case TreePosition(_, start, _) => start
  }

  function PreferredOf(p: DiagnosticPosition): int {
    match p
    case SimplePosition(pos) => pos
    case TreePosition(_, _, preferred) => preferred
  }

  /** getEndPosition(table): the tree's recorded end when the table has one,
      otherwise the preferred position. */
  function EndOf(p: DiagnosticPosition, endPosTable: map<TreeId, int>): int {
    match p
    case SimplePosition(pos) => pos
    case TreePosition(t, _, preferred) => if t in endPosTable then endPosTable[t] else preferred
  }

  /** SimpleDiagnosticPosition: no tree, and start = preferred = end = pos. */
  lemma SimplePositionSpans(pos: int, endPosTable: map<TreeId, int>)
    ensures PositionTree(SimplePosition(pos)) == None
    ensures StartOf(SimplePosition(pos)) == pos
    ensures PreferredOf(SimplePosition(pos)) == pos
    ensures EndOf(SimplePosition(pos), endPosTable) == pos
  {
  }

  /** A DiagnosticSource: the file, its line and column maps and its end
      position table. */
  datatype DiagnosticSource = DiagnosticSource(
    file: nat,
    lineNumber: int -> int,
    columnNumber: int -> int,
    endPosTable: map<TreeId, int>)

  datatype Diagnostic = Diagnostic(
    dtype: DiagnosticType,
    mandatory: bool,
    source: Option<DiagnosticSource>,
    position: Option<DiagnosticPosition>,
    key: Text,
    args: seq<Arg>,
    line: int,
    column: int)

  datatype DiagnosticError = IllegalArgument | NullDereference

  /** The preferred position of a diagnostic, NOPOS when it has no position. */
  function PositionOf(d: Diagnostic): int {
    if d.position.None? then NOPOS else PreferredOf(d.position.value)
  }

  /** What every constructed diagnostic satisfies: a diagnostic without a
      source has no real position, and line and column are -1 exactly when
      there is no position or no source, otherwise read from the source. */
  predicate WellFormed(d: Diagnostic) {
    (d.source.None? ==> PositionOf(d) == NOPOS)
    && (if PositionOf(d) == NOPOS || d.source.None?
        then d.line == -1 && d.column == -1
        else d.line == d.source.value.lineNumber(PositionOf(d))
             && d.column == d.source.value.columnNumber(PositionOf(d)))
  }

  /** The JCDiagnostic constructor. */
  function Create(dt: DiagnosticType, mandatory: bool, source: Option<DiagnosticSource>,
                  pos: Option<DiagnosticPosition>, key: Text, args: seq<Arg>)
    : (r: Result<Diagnostic, DiagnosticError>)
    ensures r.Failure? <==> source.None? && pos.Some? && PreferredOf(pos.value) != NOPOS
    ensures r.Failure? ==> r.error == IllegalArgument
    ensures r.Success? ==>
      var d := r.value;
      WellFormed(d) && d.dtype == dt && d.mandatory == mandatory && d.source == source
      && d.position == pos && d.key == key && d.args == args
  {
    if source.None? && pos.Some? && PreferredOf(pos.value) != NOPOS then
      Failure(IllegalArgument)
    else
      var n := if pos.None? then NOPOS else PreferredOf(pos.value);
      var line := if n == NOPOS || source.None? then -1 else source.value.lineNumber(n);
      var column := if n == NOPOS || source.None? then -1 else source.value.columnNumber(n);
      Success(Diagnostic(dt, mandatory, source, pos, key, args, line, column))
  }

  /** A diagnostic without a source is never located: its preferred position
      is NOPOS and its line and column are -1. */
  lemma SourcelessDiagnosticUnlocated(dt: DiagnosticType, mandatory: bool,
                                      pos: Option<DiagnosticPosition>, key: Text, args: seq<Arg>)
    requires Create(dt, mandatory, None, pos, key, args).Success?
    ensures var d := Create(dt, mandatory, None, pos, key, args).value;
      PositionOf(d) == NOPOS && d.line == -1 && d.column == -1
  {
    var d := Create(dt, mandatory, None, pos, key, args).value;
    assert WellFormed(d);
  }

  /** Factory.qualify. */
  function Qualify(prefix: Text, t: DiagnosticType, key: Text): Text {
    prefix + "." + TypeKey(t) + "." + key
  }

  /** The inverse of Qualify: recovers the type and the bare key. */
  function Unqualify(prefix: Text, s: Text): Option<(DiagnosticType, Text)> {
    var n := |prefix| + 1;
    if |s| < n || s[..n] != prefix + "." then None
    else
      var rest := s[n..];
      if |rest| >= 5 && rest[..5] == "misc." then Some((FRAGMENT, rest[5..]))
      else if |rest| >= 5 && rest[..5] == "note." then Some((NOTE, rest[5..]))
      else if |rest| >= 5 && rest[..5] == "warn." then Some((WARNING, rest[5..]))
      else if |rest| >= 4 && rest[..4] == "err." then Some((ERROR, rest[4..]))
      else None
  }

  lemma {:induction false} QualifyRoundTrip(prefix: Text, t: DiagnosticType, key: Text)
    ensures Unqualify(prefix, Qualify(prefix, t, key)) == Some((t, key))
  {
    var s := Qualify(prefix, t, key);
    var n := |prefix| + 1;
    var tk := TypeKey(t) + ".";
    assert s == (prefix + ".") + tk + key;
    assert s[..n] == prefix + ".";
    var rest := s[n..];
    assert rest == tk + key;
    assert rest[..|tk|] == tk;
    assert rest[|tk|..] == key;
    assert rest[0] == tk[0];
    match t
    case FRAGMENT =>
    case NOTE => assert rest[..5] != "misc.";
    case WARNING => assert rest[..5] != "misc." && rest[..5] != "note.";
    case ERROR => assert |rest| >= 5 ==> rest[..5] != "misc." && rest[..5] != "note." && rest[..5] != "warn.";
  }

  /** Distinct (type, key) pairs give distinct qualified keys. */
  lemma QualifyInjective(prefix: Text, t1: DiagnosticType, k1: Text, t2: DiagnosticType, k2: Text)
    requires Qualify(prefix, t1, k1) == Qualify(prefix, t2, k2)
    ensures t1 == t2 && k1 == k2
  {
    QualifyRoundTrip(prefix, t1, k1);
    QualifyRoundTrip(prefix, t2, k2);
  }

  datatype Factory = Factory(prefix: Text)

  function Error(f: Factory, source: Option<DiagnosticSource>, pos: Option<DiagnosticPosition>,
                 key: Text, args: seq<Arg>): (r: Result<Diagnostic, DiagnosticError>)
    ensures r.Success? ==> r.value.dtype == ERROR && r.value.mandatory
    ensures r.Success? ==> Unqualify(f.prefix, r.value.key) == Some((ERROR, key))
  {
    QualifyRoundTrip(f.prefix, ERROR, key);
    Create(ERROR, true, source, pos, Qualify(f.prefix, ERROR, key), args)
  }

  function MandatoryWarning(f: Factory, source: Option<DiagnosticSource>, pos: Option<DiagnosticPosition>,
                            key: Text, args: seq<Arg>): (r: Result<Diagnostic, DiagnosticError>)
    ensures r.Success? ==> r.value.dtype == WARNING && r.value.mandatory
    ensures r.Success? ==> Unqualify(f.prefix, r.value.key) == Some((WARNING, key))
  {
    QualifyRoundTrip(f.prefix, WARNING, key);
    Create(WARNING, true, source, pos, Qualify(f.prefix, WARNING, key), args)
  }

  function Warning(f: Factory, source: Option<DiagnosticSource>, pos: Option<DiagnosticPosition>,
                   key: Text, args: seq<Arg>): (r: Result<Diagnostic, DiagnosticError>)
    ensures r.Success? ==> r.value.dtype == WARNING && !r.value.mandatory
    ensures r.Success? ==> Unqualify(f.prefix, r.value.key) == Some((WARNING, key))
  {
    QualifyRoundTrip(f.prefix, WARNING, key);
    Create(WARNING, false, source, pos, Qualify(f.prefix, WARNING, key), args)
  }

  /** mandatoryNote never fails: it carries no position. */
  function MandatoryNote(f: Factory, source: Option<DiagnosticSource>, key: Text, args: seq<Arg>)
    : (d: Diagnostic)
    ensures d.dtype == NOTE && d.mandatory && d.position.None? && d.source == source
    ensures d.line == -1 && d.column == -1
    ensures Unqualify(f.prefix, d.key) == Some((NOTE, key))
  {
    QualifyRoundTrip(f.prefix, NOTE, key);
    Create(NOTE, true, source, None, Qualify(f.prefix, NOTE, key), args).value
  }

  function Note(f: Factory, source: Option<DiagnosticSource>, pos: Option<DiagnosticPosition>,
                key: Text, args: seq<Arg>): (r: Result<Diagnostic, DiagnosticError>)
    ensures r.Success? ==> r.value.dtype == NOTE && !r.value.mandatory
    ensures r.Success? ==> Unqualify(f.prefix, r.value.key) == Some((NOTE, key))
  {
    QualifyRoundTrip(f.prefix, NOTE, key);
    Create(NOTE, false, source, pos, Qualify(f.prefix, NOTE, key), args)
  }

  /** note(key, args): the source- and position-less note, which never fails. */
  function PlainNote(f: Factory, key: Text, args: seq<Arg>): (d: Diagnostic)
    ensures d.dtype == NOTE && !d.mandatory && d.source.None? && d.position.None?
    ensures Unqualify(f.prefix, d.key) == Some((NOTE, key))
  {
    Note(f, None, None, key, args).value
  }

  /** fragment: no source, no position, never fails. */
  function Fragment(f: Factory, key: Text, args: seq<Arg>): (d: Diagnostic)
    ensures d.dtype == FRAGMENT && !d.mandatory && d.source.None? && d.position.None?
    ensures d.line == -1 && d.column == -1
    ensures Unqualify(f.prefix, d.key) == Some((FRAGMENT, key))
  {
    QualifyRoundTrip(f.prefix, FRAGMENT, key);
    Create(FRAGMENT, false, None, None, Qualify(f.prefix, FRAGMENT, key), args).value
  }

  /** The static JCDiagnostic.fragment, which spells its key out by hand: it
      is the fragment of the default "compiler" factory. */
  function StaticFragment(key: Text, args: seq<Arg>): (d: Diagnostic)
    ensures d == Fragment(Factory(DefaultPrefix), key, args)
  {
    Create(FRAGMENT, false, None, None, "compiler." + TypeKey(FRAGMENT) + "." + key, args).value
  }

  /** getKind. */
  function GetKind(d: Diagnostic): (k: Kind)
    ensures KindType(k) == d.dtype
    ensures k == MandatoryWarningKind <==> d.dtype == WARNING && d.mandatory
    ensures k == WarningKind <==> d.dtype == WARNING && !d.mandatory
  {
    match d.dtype
    case NOTE => NoteKind
    case WARNING => if d.mandatory then MandatoryWarningKind else WarningKind
    case ERROR => ErrorKind
    case FRAGMENT => OtherKind
  }

  /** The diagnostic type a kind comes from: the partner of GetKind. */
  function KindType(k: Kind): DiagnosticType {
    match k
    case ErrorKind => ERROR
    case WarningKind => WARNING
    case MandatoryWarningKind => WARNING
    case NoteKind => NOTE
    case OtherKind => FRAGMENT
  }

  /** A prefix is either literal text or a key still to be localized. */
  datatype PrefixText = Plain(text: Text) | Localized(resourceKey: Text)

  /** The noun each localized prefix key ends with. */
  function PrefixNoun(dt: DiagnosticType): Text {
    match dt
    case FRAGMENT => ""
    case NOTE => "note"
    case WARNING => "warning"
    case ERROR => "error"
  }

  /** getPrefix(dt): empty for a fragment; otherwise the localized resource
      "compiler.<type key>.<noun>" of the type. */
  function GetPrefix(dt: DiagnosticType): (p: PrefixText)
    ensures p == Plain("") <==> dt == FRAGMENT
    ensures dt != FRAGMENT ==> p.Localized?
    ensures p.Localized? ==> Unqualify(DefaultPrefix, p.resourceKey) == Some((dt, PrefixNoun(dt)))
  {
    match dt
    case FRAGMENT => Plain("")
    case NOTE =>
      QualifyRoundTrip(DefaultPrefix, NOTE, "note");
      assert Qualify(DefaultPrefix, NOTE, "note") == "compiler.note.note";
      Localized("compiler.note.note")
    case WARNING =>
      QualifyRoundTrip(DefaultPrefix, WARNING, "warning");
      assert Qualify(DefaultPrefix, WARNING, "warning") == "compiler.warn.warning";
      Localized("compiler.warn.warning")
    case ERROR =>
      QualifyRoundTrip(DefaultPrefix, ERROR, "error");
      assert Qualify(DefaultPrefix, ERROR, "error") == "compiler.err.error";
      Localized("compiler.err.error")
  }

  function GetStartPosition(d: Diagnostic): int {
    if d.position.None? then NOPOS else StartOf(d.position.value)
  }

  function GetTree(d: Diagnostic): Option<TreeId> {
    if d.position.None? then None else PositionTree(d.position.value)
  }

  /** getIntEndPosition as written: it reads the source's end position table
      whenever there is a position, so a positioned diagnostic without a
      source (allowed by the constructor when the position is NOPOS) fails
      with a null dereference. */
  function GetEndPositionAsWritten(d: Diagnostic): (r: Result<int, DiagnosticError>)
    ensures r.Failure? <==> d.position.Some? && d.source.None?
  {
    if d.position.None? then Success(NOPOS)
    else if d.source.None? then Failure(NullDereference)
    else Success(EndOf(d.position.value, d.source.value.endPosTable))
  }

  /** A warning built with no source and a NOPOS position is accepted by the
      constructor, and its end position then fails. */
  lemma EndPositionAsWrittenFails()
    ensures var r := Warning(Factory(DefaultPrefix), None, Some(SimplePosition(NOPOS)), "w", []);
      r.Success? && GetEndPositionAsWritten(r.value).Failure?
  {
  }

  /** The end position with an empty end position table when there is no
      source: defined for every diagnostic, equal to the as-written result
      whenever that one succeeds. */
  function GetEndPosition(d: Diagnostic): (e: int)
    ensures GetEndPositionAsWritten(d).Success? ==> e == GetEndPositionAsWritten(d).value
    ensures WellFormed(d) && d.source.None? ==> e == NOPOS
  {
    if d.position.None? then NOPOS
    else EndOf(d.position.value, if d.source.None? then map[] else d.source.value.endPosTable)
  }

  /** Without a position every position getter answers NOPOS and there is no tree;
      with a simple position they all answer its offset. */
  lemma PositionGetters(d: Diagnostic)
    ensures d.position.None? ==>
      GetStartPosition(d) == NOPOS && PositionOf(d) == NOPOS && GetEndPosition(d) == NOPOS
      && GetTree(d).None?
    ensures d.position.Some? && d.position.value.SimplePosition? ==>
      var p := d.position.value.pos;
      GetStartPosition(d) == p && PositionOf(d) == p && GetEndPosition(d) == p && GetTree(d).None?
  {
  }

  /** hasFixedPositions dereferences the position: it fails without one, and
      otherwise is true exactly when there is no tree. */
  function HasFixedPositions(d: Diagnostic): (r: Result<bool, DiagnosticError>)
    ensures r.Failure? <==> d.position.None?
    ensures r.Success? ==> (r.value <==> GetTree(d).None?)
  {
    if d.position.None? then Failure(NullDereference)
    else Success(PositionTree(d.position.value).None?)
  }

  /** getCode: the qualified key. */
  function GetCode(d: Diagnostic): Text {
    d.key
  }
}

/** The supported-annotation strings of annotation processors
    ("*", "a.b.C", "a.b.*") and their translation into regular expressions
    (JavacProcessingEnvironment.importStringToPattern), together with the
    option-name rule (isValidOptionName).  The regular expressions that the
    translation can produce are modelled by a small token language with
    whole-input matching, as Matcher.matches does. */
module ProcessingPatterns {
  import opened JavaText

  /** The line terminators that "." does not match. */
  predicate IsLineTerminator(c: char) {
    c == '\n' || c == '\r' || c == '\U{0085}' || c == '\U{2028}' || c == '\U{2029}'
  }

  predicate NoLineTerminator(s: Text) {
    forall i :: 0 <= i < |s| ==> !IsLineTerminator(s[i])
  }

  /** One piece of a compiled pattern: a literal character (the translation
      escapes "."), or the anchor that an unescaped "$" is: the end of the
      input, or just before a line terminator that ends the input. */
  datatype Token = Literal(c: char) | EndAnchor

  /** allMatches is ".*"; noMatches is "(\P{all})+", which matches no
      character; a compiled string is its tokens, optionally followed by
      ".+" where the trailing "*" stood. */
  datatype Pattern =
    | AllMatches
    | NoMatches
    | Compiled(tokens: seq<Token>, anyTail: bool)

  /** Whole-input match of tokens (and the optional ".+" tail) from offset i. */
  function MatchFrom(tokens: seq<Token>, anyTail: bool, input: Text, i: nat): bool
    requires i <= |input|
    decreases |tokens|
  {
    if |tokens| == 0 then
      if anyTail then i < |input| && NoLineTerminator(input[i..]) else i == |input|
    else
      match tokens[0]
      case Literal(c) => i < |input| && input[i] == c && MatchFrom(tokens[1..], anyTail, input, i + 1)
      case EndAnchor => DollarAt(input, i) && MatchFrom(tokens[1..], anyTail, input, i)
  }

  /** Where "$" matches without MULTILINE (java.util.regex.Pattern.Dollar):
      at the end of the input, before a final line terminator (but not
      between "\r" and "\n"), or before a final "\r\n". */
  predicate DollarAt(input: Text, i: nat)
    requires i <= |input|
  {
    i == |input|
    || (i == |input| - 1 && IsLineTerminator(input[i]) && !(input[i] == '\n' && i > 0 && input[i - 1] == '\r'))
    || (i == |input| - 2 && input[i] == '\r' && input[i + 1] == '\n')
  }

  /** Pattern.matcher(input).matches(). */
  function Matches(p: Pattern, input: Text): bool {
    match p
    case AllMatches => NoLineTerminator(input)
    case NoMatches => false
    case Compiled(tokens, anyTail) => MatchFrom(tokens, anyTail, input, 0)
  }

  /** Every dot-separated piece (empty ones kept) is an identifier. */
  predicate DottedIdentifiers(t: Text) {
    var pieces := Split(t, '.');
    forall k :: 0 <= k < |pieces| ==> IsIdentifier(pieces[k])
  }

  /** The accepted forms of a supported-annotation string: "*", a dotted
      name, or a dotted name followed by ".*". */
  predicate ValidImportString(s: Text) {
    s == "*"
    || DottedIdentifiers(s)
    || (|s| >= 2 && s[|s| - 2..] == ".*" && DottedIdentifiers(s[..|s| - 2]))
  }

  /** The validation importStringToPattern performs on a string other than
      "*": the first "*", if any, must be the last character and follow a
      ".", and the pieces of what remains must be identifiers.  It accepts
      exactly the valid forms. */
  function CheckImportString(s: Text): (valid: bool)
    requires s != "*"
    ensures valid <==> ValidImportString(s)
  {
    var index := IndexOf(s, '*');
    if index != -1 then
      if index == |s| - 1 then
        if index - 1 >= 0 then
          StarLastValidity(s);
          s[index - 1] == '.' && DottedIdentifiers(s[..|s| - 2])
        else
          assert false;
          false
      else
        StarInsideInvalid(s, index);
        false
    else
      NoStarValidity(s);
      DottedIdentifiers(s)
  }

  lemma NoStarValidity(s: Text)
    requires '*' !in s
    ensures DottedIdentifiers(s) <==> ValidImportString(s)
  {
    if |s| >= 2 {
      assert s[|s| - 2..][1] == s[|s| - 1];
    }
  }

  lemma StarLastValidity(s: Text)
    requires |s| >= 2 && s[|s| - 1] == '*'
    ensures (s[|s| - 2] == '.' && DottedIdentifiers(s[..|s| - 2])) <==> ValidImportString(s)
  {
    assert !IsIdentifierPart('*');
    if DottedIdentifiers(s) {
      DottedCharacters(s, |s| - 1);
      assert false;
    }
    assert s[|s| - 2..] == [s[|s| - 2], s[|s| - 1]];
  }

  lemma StarInsideInvalid(s: Text, index: nat)
    requires index < |s| - 1 && s[index] == '*'
    ensures !ValidImportString(s)
  {
    if DottedIdentifiers(s) {
      DottedCharacters(s, index);
    }
    if |s| >= 2 && s[|s| - 2..] == ".*" && DottedIdentifiers(s[..|s| - 2]) {
      assert s[|s| - 2] == '.';
      assert index < |s| - 2;
      assert s[..|s| - 2][index] == '*';
      DottedCharacters(s[..|s| - 2], index);
    }
  }

  /** The tokens of s with "." escaped; "$" becomes the end anchor when
      dollarIsAnchor, and a literal otherwise. */
  function Tokens(s: Text, dollarIsAnchor: bool): (r: seq<Token>)
    ensures |r| == |s|
  {
    if |s| == 0 then []
    else [if dollarIsAnchor && s[0] == '$' then EndAnchor else Literal(s[0])] + Tokens(s[1..], dollarIsAnchor)
  }

  /** The compiled form of a valid string: its tokens, with a trailing "*"
      turned into ".+". */
  function Translate(s: Text, dollarIsAnchor: bool): Pattern {
    if |s| > 0 && s[|s| - 1] == '*' then Compiled(Tokens(s[..|s| - 1], dollarIsAnchor), true)
    else Compiled(Tokens(s, dollarIsAnchor), false)
  }

  /** importStringToPattern as written: "$" is left unescaped and so acts as
      the end-of-input anchor of the regular expression. */
  function ImportStringToPattern(s: Text): (p: Pattern)
    ensures p == AllMatches <==> s == "*"
    ensures p == NoMatches <==> !ValidImportString(s)
  {
    if s == "*" then AllMatches
    else if !CheckImportString(s) then NoMatches
    else Translate(s, true)
  }

  /** importStringToPattern with "$" escaped like ".", so that the pattern of
      a name matches that name. */
  function ImportStringToPatternCorrected(s: Text): (p: Pattern)
    ensures p == AllMatches <==> s == "*"
    ensures p == NoMatches <==> !ValidImportString(s)
  {
    if s == "*" then AllMatches
    else if !CheckImportString(s) then NoMatches
    else Translate(s, false)
  }

  /** A run of literal tokens matches exactly its own text. */
  lemma {:induction false} LiteralRun(b: Text, anyTail: bool, input: Text, i: nat)
    requires i <= |input|
    ensures MatchFrom(Tokens(b, false), anyTail, input, i) <==>
      i + |b| <= |input| && input[i..i + |b|] == b
      && (if anyTail then i + |b| < |input| && NoLineTerminator(input[i + |b|..]) else i + |b| == |input|)
    decreases |b|
  {
    if |b| > 0 && i < |input| {
      LiteralRun(b[1..], anyTail, input, i + 1);
      if i + |b| <= |input| {
        assert input[i..i + |b|] == [input[i]] + input[i + 1..i + |b|];
        assert b == [b[0]] + b[1..];
      }
    }
  }

  /** Without "$" the two translations coincide. */
  lemma {:induction false} TokensWithoutDollar(b: Text)
    requires '$' !in b
    ensures Tokens(b, true) == Tokens(b, false)
  {
    if |b| > 0 {
      assert '$' !in b[1..];
      TokensWithoutDollar(b[1..]);
    }
  }

  /** The corrected translation of a valid dotted name matches exactly that name. */
  lemma CorrectedNameMatchesItself(s: Text, input: Text)
    requires DottedIdentifiers(s)
    ensures Matches(ImportStringToPatternCorrected(s), input) <==> input == s
  {
    if |s| > 0 && s[|s| - 1] == '*' {
      DottedCharacters(s, |s| - 1);
    }
    if s == "*" {
      DottedCharacters(s, 0);
    }
    LiteralRun(s, false, input, 0);
    assert input[0..|input|] == input;
  }

  /** The corrected translation of "p.*" matches "p." followed by at least one
      character, none of them a line terminator. */
  lemma CorrectedWildcardMatches(s: Text, input: Text)
    requires |s| >= 2 && s[|s| - 2..] == ".*" && DottedIdentifiers(s[..|s| - 2])
    ensures var prefix := s[..|s| - 1];
      Matches(ImportStringToPatternCorrected(s), input) <==>
        |input| > |prefix| && input[..|prefix|] == prefix && NoLineTerminator(input[|prefix|..])
  {
    assert s != "*";
    assert ValidImportString(s);
    var prefix := s[..|s| - 1];
    LiteralRun(prefix, true, input, 0);
  }

  /** Strings without "$" are translated alike by both versions, so the
      properties above hold for importStringToPattern on them. */
  lemma AsWrittenAgreesWithoutDollar(s: Text)
    requires '$' !in s
    ensures ImportStringToPattern(s) == ImportStringToPatternCorrected(s)
  {
    if s != "*" && CheckImportString(s) {
      if |s| > 0 && s[|s| - 1] == '*' {
        assert '$' !in s[..|s| - 1];
        TokensWithoutDollar(s[..|s| - 1]);
      } else {
        TokensWithoutDollar(s);
      }
    }
  }

  /** Invalid strings match nothing, in both versions. */
  lemma InvalidMatchesNothing(s: Text, input: Text)
    requires !ValidImportString(s)
    ensures !Matches(ImportStringToPattern(s), input)
    ensures !Matches(ImportStringToPatternCorrected(s), input)
  {
  }

  /** "a.b$" is a valid supported-annotation string (identifiers may contain
      "$"); as written its pattern does not match the name "a.b$" but does
      match "a.b". */
  lemma DollarAnchorCounterexample()
    ensures ValidImportString("a.b$")
    ensures !Matches(ImportStringToPattern("a.b$"), "a.b$")
    ensures Matches(ImportStringToPattern("a.b$"), "a.b")
  {
    var s: Text := "a.b$";
    assert IndexOf(s, '.') == 1;
    assert s[..1] == "a";
    assert s[2..] == "b$";
    assert '.' !in "b$";
    assert Split("b$", '.') == ["b$"];
    assert Split(s, '.') == ["a", "b$"];
    assert DottedIdentifiers(s);
    assert CheckImportString(s);
    assert Tokens(s, true) == [Literal('a'), Literal('.'), Literal('b'), EndAnchor];
    var t := [Literal('a'), Literal('.'), Literal('b'), EndAnchor];
    assert t[1..][1..][1..] == [EndAnchor];
    assert !MatchFrom([EndAnchor], false, s, 3);
    assert MatchFrom([EndAnchor], false, "a.b", 3);
  }

  /** "$" also matches before a line terminator that ends the input: the
      valid string "a$\U{0085}" (U+0085 is identifier-ignorable) compiles,
      as written, to a pattern that matches "a\U{0085}". */
  lemma DollarBeforeTerminator()
    ensures ValidImportString("a$\U{0085}")
    ensures Matches(ImportStringToPattern("a$\U{0085}"), "a\U{0085}")
  {
    var s: Text := "a$\U{0085}";
    assert '.' !in s;
    assert Split(s, '.') == [s];
    assert IsIdentifier(s);
    assert DottedIdentifiers(s);
    assert IndexOf(s, '*') == -1;
    assert CheckImportString(s);
    assert Tokens(s, true) == [Literal('a'), EndAnchor, Literal('\U{0085}')];
    var input: Text := "a\U{0085}";
    assert MatchFrom([Literal('\U{0085}')], false, input, 1);
    assert DollarAt(input, 1);
  }

  /** isValidOptionName: every dot-separated piece (empty ones kept) is an identifier. */
  predicate IsValidOptionName(name: Text) {
    DottedIdentifiers(name)
  }

  /** The valid option names are exactly the dot-joins of identifiers. */
  lemma {:induction false} ValidOptionNamesAreJoins(ids: seq<Text>)
    requires |ids| >= 1
    requires forall k :: 0 <= k < |ids| ==> IsIdentifier(ids[k])
    ensures IsValidOptionName(Join(ids, '.'))
  {
    forall k | 0 <= k < |ids| ensures '.' !in ids[k] {
      assert IsIdentifier(ids[k]);
    }
    SplitJoin(ids, '.');
  }

  lemma ValidOptionNameSplits(name: Text)
    requires IsValidOptionName(name)
    ensures Join(Split(name, '.'), '.') == name
    ensures forall k :: 0 <= k < |Split(name, '.')| ==> IsIdentifier(Split(name, '.')[k])
  {
    JoinSplit(name, '.');
  }
}

/** Text helpers shared by the processing components: the javax.lang.model
    SourceVersion predicates on identifiers and qualified names, and the
    java.lang.String operations (indexOf, lastIndexOf, split) they are built on. */
module JavaText {

  type Text = seq<char>

  /** Character.isJavaIdentifierStart on the Latin-1 range, below U+0100: a
      letter, a currency symbol (`$` and U+00A2 to U+00A5) or the connector
      `_`.  The Latin-1 letters are U+00AA, U+00B5, U+00BA and U+00C0 to
      U+00FF except the signs U+00D7 and U+00F7.  No character from U+0100
      on is taken to be one. */
  predicate IsIdentifierStart(c: char) {
    ('a' <= c <= 'z') || ('A' <= c <= 'Z') || c == '_' || c == '$'
    || ('\U{A2}' <= c <= '\U{A5}') || c == '\U{AA}' || c == '\U{B5}' || c == '\U{BA}'
    || ('\U{C0}' <= c <= '\U{FF}' && c != '\U{D7}' && c != '\U{F7}')
  }

  /** Character.isIdentifierIgnorable on the Latin-1 range: the control
      characters other than white space and the information separators, and
      the soft hyphen U+00AD. */
  predicate IsIdentifierIgnorable(c: char) {
    ('\U{0}' <= c <= '\U{8}') || ('\U{E}' <= c <= '\U{1B}') || ('\U{7F}' <= c <= '\U{9F}') || c == '\U{AD}'
  }

  /** Character.isJavaIdentifierPart on the Latin-1 range: an identifier
      start, a digit or an ignorable character. */
  predicate IsIdentifierPart(c: char) {
    IsIdentifierStart(c) || ('0' <= c <= '9') || IsIdentifierIgnorable(c)
  }

  /** SourceVersion.isIdentifier: a non-empty run of identifier characters
      that starts with an identifier-start character; keywords are not excluded. */
  predicate IsIdentifier(s: Text) {
    |s| > 0 && IsIdentifierStart(s[0]) && forall i :: 1 <= i < |s| ==> IsIdentifierPart(s[i])
  }

  /** The reserved words of the latest source version: keywords, the literals
      true, false and null, and the underscore. */
  const Keywords: set<Text> := {
    "abstract", "assert", "boolean", "break", "byte", "case", "catch", "char",
    "class", "const", "continue", "default", "do", "double", "else", "enum",
    "extends", "final", "finally", "float", "for", "goto", "if", "implements",
    "import", "instanceof", "int", "interface", "long", "native", "new",
    "package", "private", "protected", "public", "return", "short", "static",
    "strictfp", "super", "switch", "synchronized", "this", "throw", "throws",
    "transient", "try", "void", "volatile", "while", "true", "false", "null", "_"
  }

  /** SourceVersion.isName: every dot-separated segment (empty ones kept) is an
      identifier that is not a keyword. */
  predicate IsName(s: Text) {
    var segments := Split(s, '.');
    forall k :: 0 <= k < |segments| ==> IsIdentifier(segments[k]) && segments[k] !in Keywords
  }

  /** String.indexOf(char): the first index of c in s, or -1. */
  function IndexOf(s: Text, c: char): (i: int)
    ensures -1 <= i < |s|
    ensures i == -1 <==> c !in s
    ensures 0 <= i ==> s[i] == c && c !in s[..i]
  {
    if |s| == 0 then -1
    else if s[0] == c then 0
    else
      var j := IndexOf(s[1..], c);
      if j < 0 then -1
      else
        assert s[..j + 1] == [s[0]] + s[1..][..j];
        j + 1
  }

  /** String.lastIndexOf(char): the last index of c in s, or -1. */
  function LastIndexOf(s: Text, c: char): (i: int)
    ensures -1 <= i < |s|
    ensures i == -1 <==> c !in s
    ensures 0 <= i ==> s[i] == c && c !in s[i + 1..]
  {
    if |s| == 0 then -1
    else if s[|s| - 1] == c then |s| - 1
    else
      var j := LastIndexOf(s[..|s| - 1], c);
      assert j >= 0 ==> s[j + 1..] == s[..|s| - 1][j + 1..] + [s[|s| - 1]];
      j
  }

  /** String.split(sep, -1) for a single literal separator character: the
      maximal separator-free pieces, empty ones included. */
  function Split(s: Text, sep: char): (r: seq<Text>)
    ensures |r| >= 1
    ensures forall k :: 0 <= k < |r| ==> sep !in r[k]
    ensures sep !in s ==> r == [s]
    decreases |s|
  {
    var i := IndexOf(s, sep);
    if i < 0 then [s] else [s[..i]] + Split(s[i + 1..], sep)
  }

  /** String.split(sep) with the default limit: as Split, but trailing empty
      pieces are dropped, unless the separator does not occur at all. */
  function SplitDroppingTrailing(s: Text, sep: char): (r: seq<Text>)
    ensures sep !in s ==> r == [s]
    ensures forall k :: 0 <= k < |r| ==> sep !in r[k]
    ensures sep in s ==> (|r| == 0 || r[|r| - 1] != [])
  {
    if sep !in s then [s] else DropTrailingEmpty(Split(s, sep))
  }

  function DropTrailingEmpty(parts: seq<Text>): (r: seq<Text>)
    ensures r <= parts
    ensures |r| == 0 || r[|r| - 1] != []
    ensures forall k :: |r| <= k < |parts| ==> parts[k] == []
  {
    if |parts| == 0 then []
    else if parts[|parts| - 1] == [] then DropTrailingEmpty(parts[..|parts| - 1])
    else parts
  }

  /** The last c of a + [c] + b is the one after a, when b has none. */
  lemma {:induction false} LastIndexOfBefore(a: Text, c: char, b: Text)
    requires c !in b
    ensures LastIndexOf(a + [c] + b, c) == |a|
    decreases |b|
  {
    var s := a + [c] + b;
    if b != [] {
      var b0 := b[..|b| - 1];
      assert s[|s| - 1] == b[|b| - 1] != c;
      assert s[..|s| - 1] == a + [c] + b0;
      assert c !in b0 by {
        assert forall j :: 0 <= j < |b0| ==> b0[j] == b[j];
      }
      LastIndexOfBefore(a, c, b0);
    }
  }

  /** The inverse of Split: the pieces glued together with the separator. */
  function Join(parts: seq<Text>, sep: char): Text
    requires |parts| >= 1
  {
    if |parts| == 1 then parts[0] else parts[0] + [sep] + Join(parts[1..], sep)
  }

  lemma {:induction false} JoinSplit(s: Text, sep: char)
    ensures Join(Split(s, sep), sep) == s
    decreases |s|
  {
    if sep in s {
      var i := IndexOf(s, sep);
      var a, b := s[..i], s[i + 1..];
      assert s == a + [sep] + b;
      SplitAfter(a, sep, b);
      JoinSplit(b, sep);
      JoinCons(a, Split(b, sep), sep);
    }
  }

  /** Joining a first piece in front of the others puts one separator
      between them. */
  lemma JoinCons(p: Text, rest: seq<Text>, sep: char)
    requires |rest| >= 1
    ensures Join([p] + rest, sep) == p + [sep] + Join(rest, sep)
  {
    assert ([p] + rest)[1..] == rest;
  }

  /** The first separator of a + [c] + b is the one after a, when a has none. */
  lemma IndexOfAfter(a: Text, c: char, b: Text)
    requires c !in a
    ensures IndexOf(a + [c] + b, c) == |a|
  {
    assert (a + [c] + b)[|a|] == c;
  }

  /** Splitting a + [c] + b peels off a, when a has no separator. */
  lemma SplitAfter(a: Text, c: char, b: Text)
    requires c !in a
    ensures Split(a + [c] + b, c) == [a] + Split(b, c)
  {
    var s := a + [c] + b;
    IndexOfAfter(a, c, b);
    assert s[..|a|] == a;
    assert s[|a| + 1..] == b;
  }

  lemma {:induction false} SplitJoin(parts: seq<Text>, sep: char)
    requires |parts| >= 1
    requires forall k :: 0 <= k < |parts| ==> sep !in parts[k]
    ensures Split(Join(parts, sep), sep) == parts
  {
    if |parts| > 1 {
      var tail := parts[1..];
      assert forall k :: 0 <= k < |tail| ==> sep !in tail[k] by {
        forall k | 0 <= k < |tail| ensures sep !in tail[k] {
          assert tail[k] == parts[k + 1];
        }
      }
      SplitJoin(tail, sep);
      var rest := Join(tail, sep);
      assert Join(parts, sep) == parts[0] + [sep] + rest;
      assert sep !in parts[0];
      SplitAfter(parts[0], sep, rest);
      assert parts == [parts[0]] + tail;
    }
  }

  /** Every character of s other than the separator lies in some piece. */
  lemma {:induction false} SplitCovers(s: Text, sep: char, i: nat)
    requires i < |s| && s[i] != sep
    ensures exists k :: 0 <= k < |Split(s, sep)| && s[i] in Split(s, sep)[k]
    decreases |s|
  {
    var idx := IndexOf(s, sep);
    if idx < 0 {
      assert s[i] in Split(s, sep)[0];
    } else if i < idx {
      assert s[i] == s[..idx][i];
      assert s[i] in Split(s, sep)[0];
    } else {
      assert i != idx;
      var rest := s[idx + 1..];
      assert rest[i - idx - 1] == s[i];
      SplitCovers(rest, sep, i - idx - 1);
      var k :| 0 <= k < |Split(rest, sep)| && s[i] in Split(rest, sep)[k];
      assert Split(s, sep)[k + 1] == Split(rest, sep)[k];
    }
  }

  /** A text whose dot-separated pieces are all identifiers consists of dots
      and identifier characters only. */
  lemma DottedCharacters(t: Text, i: nat)
    requires i < |t|
    requires forall k :: 0 <= k < |Split(t, '.')| ==> IsIdentifier(Split(t, '.')[k])
    ensures t[i] == '.' || IsIdentifierPart(t[i])
  {
    if t[i] != '.' {
      var pieces := Split(t, '.');
      SplitCovers(t, '.', i);
      var k :| 0 <= k < |pieces| && t[i] in pieces[k];
      var piece := pieces[k];
      assert IsIdentifier(piece);
      var j :| 0 <= j < |piece| && piece[j] == t[i];
      if j == 0 {
        assert IsIdentifierStart(t[i]);
      } else {
        assert IsIdentifierPart(piece[j]);
      }
    }
  }

  /** The digit character of a value below ten. */
  function Digit(d: nat): (c: char)
    requires d < 10
    ensures '0' <= c <= '9'
  {
    ('0' as int + d) as char
  }

  /** Integer.toString of a non-negative int: its decimal digits, most
      significant first, without leading zeros. */
  function Decimal(n: nat): (r: Text)
    ensures |r| >= 1 && (forall i :: 0 <= i < |r| ==> '0' <= r[i] <= '9')
    ensures (|r| == 1) == (n < 10)
    ensures r[|r| - 1] == Digit(n % 10)
    decreases n
  {
    if n < 10 then [Digit(n)] else Decimal(n / 10) + [Digit(n % 10)]
  }

  /** Distinct numbers have distinct decimal renderings. */
  lemma {:induction false} DecimalInjective(a: nat, b: nat)
    requires Decimal(a) == Decimal(b)
    ensures a == b
    decreases a
  {
    var r := Decimal(a);
    assert Digit(a % 10) == r[|r| - 1] == Digit(b % 10);
    if a >= 10 && b >= 10 {
      assert Decimal(a / 10) == r[..|r| - 1] == Decimal(b / 10);
      DecimalInjective(a / 10, b / 10);
    }
  }
}

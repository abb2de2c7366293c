/** The scanning layer of the Authentication-Results parser: character
    classes, comments, quoted strings, folds and byte lengths over the UTF-16
    code units a JavaScript string holds. */
module AuthText {
  import opened Wrappers
  import Sequences

  type Unit = n: int | 0 <= n < 0x1_0000
  type Text = seq<Unit>

  const TAB: Unit := 9
  const LF: Unit := 10
  const CR: Unit := 13
  const SPACE: Unit := 32
  const QUOTE: Unit := 34
  const OPEN: Unit := 40
  const CLOSE: Unit := 41
  const HYPHEN: Unit := 45
  const DOT: Unit := 46
  const SLASH: Unit := 47
  const SEMICOLON: Unit := 59
  const EQUALS: Unit := 61
  const BACKSLASH: Unit := 92
  const UNDERSCORE: Unit := 95

  /** The code units of an ASCII literal. */
  function Ascii(s: string): (t: Text)
    requires forall i :: 0 <= i < |s| ==> s[i] < 128 as char
  {
    seq(|s|, i requires 0 <= i < |s| => s[i] as int)
  }

  predicate IsSpace(u: Unit) {
    u == SPACE || u == TAB || u == CR || u == LF
  }

  predicate IsDigit(u: Unit) {
    48 <= u <= 57
  }

  predicate IsKeyword(u: Unit) {
    IsDigit(u) || 65 <= u <= 90 || 97 <= u <= 122 || u == UNDERSCORE || u == HYPHEN
  }

  predicate IsBare(u: Unit) {
    !IsSpace(u) && u != QUOTE
  }

  predicate IsControl(u: Unit) {
    u < 0x20 || 0x7F <= u < 0xA0
  }

  datatype Class = Space | Keyword | Bare

  predicate In(u: Unit, chars: Class) {
    match chars
    case Space => IsSpace(u)
    case Keyword => IsKeyword(u)
    case Bare => IsBare(u)
  }

  predicate All(t: Text, chars: Class) {
    forall i :: 0 <= i < |t| ==> In(t[i], chars)
  }

  /** The unit at an index as `charAt` answers it; nothing past the end. */
  predicate At(text: Text, at: nat, u: Unit) {
    at < |text| && text[at] == u
  }

  /** Lower case of the ASCII letters, which is all a keyword holds. */
  function LowerUnit(u: Unit): Unit {
    if 65 <= u <= 90 then u + 32 else u
  }

  function Lower(t: Text): (r: Text) {
    seq(|t|, i requires 0 <= i < |t| => LowerUnit(t[i]))
  }

  /** UTF-8 octets of the text; a lone surrogate is encoded as U+FFFD. */
  function ByteLength(t: Text): nat {
    if t == [] then 0
    else if t[0] < 0x80 then 1 + ByteLength(t[1..])
    else if t[0] < 0x800 then 2 + ByteLength(t[1..])
    else if 0xD800 <= t[0] < 0xDC00 && |t| > 1 && 0xDC00 <= t[1] < 0xE000 then 4 + ByteLength(t[2..])
    else 3 + ByteLength(t[1..])
  }

  lemma {:induction false} LengthWithinBytes(t: Text)
    ensures |t| <= ByteLength(t)
  {
    if t == [] {
    } else if 0xD800 <= t[0] < 0xDC00 && |t| > 1 && 0xDC00 <= t[1] < 0xE000 {
      LengthWithinBytes(t[2..]);
    } else {
      LengthWithinBytes(t[1..]);
    }
  }

  /** The code points of the text; half a surrogate pair alone is U+FFFD. */
  ghost function CodePoints(t: Text): seq<int> {
    if t == [] then []
    else if 0xD800 <= t[0] <= 0xDBFF && |t| > 1 && 0xDC00 <= t[1] <= 0xDFFF then
      [0x1_0000 + (t[0] - 0xD800) * 0x400 + (t[1] - 0xDC00)] + CodePoints(t[2..])
    else [if 0xD800 <= t[0] <= 0xDFFF then 0xFFFD else t[0]] + CodePoints(t[1..])
  }

  /** The octets of a code point by section 3 of RFC 3629. */
  ghost function Octets(c: int): seq<int> {
    if c <= 0x7F then [c]
    else if c <= 0x7FF then [0xC0 + c / 0x40, 0x80 + c % 0x40]
    else if c <= 0xFFFF then [0xE0 + c / 0x1000, 0x80 + c / 0x40 % 0x40, 0x80 + c % 0x40]
    else [0xF0 + c / 0x4_0000, 0x80 + c / 0x1000 % 0x40, 0x80 + c / 0x40 % 0x40, 0x80 + c % 0x40]
  }

  ghost function Utf8(points: seq<int>): seq<int> {
    if points == [] then [] else Octets(points[0]) + Utf8(points[1..])
  }

  /** The bounds count the octets that go on the wire. */
  lemma {:induction false} BytesAreUtf8(t: Text)
    ensures ByteLength(t) == |Utf8(CodePoints(t))|
  {
    if t != [] {
      var pair := 0xD800 <= t[0] <= 0xDBFF && |t| > 1 && 0xDC00 <= t[1] <= 0xDFFF;
      var rest := if pair then t[2..] else t[1..];
      BytesAreUtf8(rest);
      assert CodePoints(t)[1..] == CodePoints(rest);
    }
  }

  predicate Folds(t: Text) {
    |t| > 1 && t[0] == LF && (t[1] == SPACE || t[1] == TAB)
  }

  /** The text without the line breaks that fold a line. */
  function Unfold(t: Text): Text {
    if t == [] then []
    else if Folds(t) then Unfold(t[1..])
    else if t[0] == CR && Folds(t[1..]) then Unfold(t[2..])
    else [t[0]] + Unfold(t[1..])
  }

  /** The text with each quoted pair read as its second unit. */
  function Unescape(t: Text): Text {
    if t == [] then []
    else if t[0] == BACKSLASH && |t| > 1 then [t[1]] + Unescape(t[2..])
    else [t[0]] + Unescape(t[1..])
  }

  function Escape(t: Text): Text {
    if t == [] then []
    else if t[0] == BACKSLASH || t[0] == QUOTE then [BACKSLASH, t[0]] + Escape(t[1..])
    else [t[0]] + Escape(t[1..])
  }

  // ---------------------------------------------------------------------
  // Runs, comments, quoted strings
  // ---------------------------------------------------------------------

  function RunEnd(text: Text, start: nat, chars: Class): (end: nat)
    requires start <= |text|
    ensures start <= end <= |text|
    decreases |text| - start
  {
    if start < |text| && In(text[start], chars) then RunEnd(text, start + 1, chars) else start
  }

  function SkipSpace(text: Text, start: nat): (end: nat)
    requires start <= |text|
    ensures start <= end <= |text|
  {
    RunEnd(text, start, Space)
  }

  /** The walk of `commentEnd` from an index inside `depth` comments. */
  function CommentRest(text: Text, at: nat, depth: nat): (end: Option<nat>)
    requires depth > 0 || At(text, at, OPEN)
    ensures end.Some? ==> at < end.value <= |text|
    decreases |text| - at
  {
    if at >= |text| then None
    else if text[at] == OPEN then CommentRest(text, at + 1, depth + 1)
    else if text[at] == CLOSE then
      if depth == 1 then Some(at + 1) else CommentRest(text, at + 1, depth - 1)
    else if text[at] == BACKSLASH then CommentRest(text, at + 2, depth)
    else CommentRest(text, at + 1, depth)
  }

  function CommentEnd(text: Text, start: nat): (end: Option<nat>)
    requires At(text, start, OPEN)
    ensures end.Some? ==> start < end.value <= |text|
  {
    CommentRest(text, start, 0)
  }

  function QuotedRest(text: Text, at: nat): (end: Option<nat>)
    ensures end.Some? ==> at < end.value <= |text| && text[end.value - 1] == QUOTE
    decreases |text| - at
  {
    if at >= |text| then None
    else if text[at] == QUOTE then Some(at + 1)
    else if text[at] == BACKSLASH then QuotedRest(text, at + 2)
    else QuotedRest(text, at + 1)
  }

  function QuotedEnd(text: Text, start: nat): (end: Option<nat>)
    requires At(text, start, QUOTE)
    ensures end.Some? ==> start + 1 < end.value <= |text|
  {
    QuotedRest(text, start + 1)
  }

  /** The index past a whole comment, a whole quoted string or one unit; a
      closing parenthesis that closes nothing cannot be read. */
  function PieceEnd(text: Text, at: nat): (end: Option<nat>)
    requires at < |text|
    ensures end.Some? ==> at < end.value <= |text|
  {
    if text[at] == OPEN then CommentEnd(text, at)
    else if text[at] == QUOTE then QuotedEnd(text, at)
    else if text[at] == CLOSE then None
    else Some(at + 1)
  }

  method ScanRun(text: Text, start: nat, chars: Class) returns (at: nat)
    requires start <= |text|
    ensures at == RunEnd(text, start, chars)
  {
    at := start;
    while at < |text| && In(text[at], chars)
      invariant start <= at <= |text|
      invariant RunEnd(text, at, chars) == RunEnd(text, start, chars)
    {
      at := at + 1;
    }
  }

  method ScanComment(text: Text, start: nat) returns (end: Option<nat>)
    requires At(text, start, OPEN)
    ensures end == CommentEnd(text, start)
  {
    var depth := 0;
    var at := start;
    while at < |text|
      invariant depth > 0 || (depth == 0 && at == start)
      invariant CommentRest(text, at, depth) == CommentEnd(text, start)
      decreases |text| - at
    {
      var c := text[at];
      if c == OPEN {
        depth := depth + 1;
      } else if c == CLOSE {
        depth := depth - 1;
      } else if c == BACKSLASH {
        at := at + 1;
      }
      at := at + 1;
      if depth == 0 {
        return Some(at);
      }
    }
    end := None;
  }

  method ScanQuoted(text: Text, start: nat) returns (end: Option<nat>)
    requires At(text, start, QUOTE)
    ensures end == QuotedEnd(text, start)
  {
    var at := start + 1;
    while at < |text|
      invariant QuotedRest(text, at) == QuotedEnd(text, start)
      decreases |text| - at
    {
      var c := text[at];
      at := at + 1;
      if c == QUOTE {
        return Some(at);
      }
      if c == BACKSLASH {
        at := at + 1;
      }
    }
    end := None;
  }

  // ---------------------------------------------------------------------
  // Comments as the grammar nests them
  // ---------------------------------------------------------------------

  /** The content of a comment by section 3.2.2 of RFC 5322: plain units,
      quoted pairs and comments inside it. */
  datatype Content =
    | Done
    | Plain(u: Unit, rest: Content)
    | Pair(u: Unit, rest: Content)
    | Nested(inner: Content, rest: Content)

  predicate ValidContent(c: Content) {
    match c
    case Done => true
    case Plain(u, rest) => u != OPEN && u != CLOSE && u != BACKSLASH && ValidContent(rest)
    case Pair(_, rest) => ValidContent(rest)
    case Nested(inner, rest) => ValidContent(inner) && ValidContent(rest)
  }

  /** The content written ahead of a text. */
  function Written(c: Content, after: Text): Text {
    match c
    case Done => after
    case Plain(u, rest) => [u] + Written(rest, after)
    case Pair(u, rest) => [BACKSLASH] + ([u] + Written(rest, after))
    case Nested(inner, rest) => [OPEN] + Written(inner, [CLOSE] + Written(rest, after))
  }

  /** Past a written content the counter stands at the same depth. */
  lemma {:induction false} WalksContent(text: Text, at: nat, depth: nat, c: Content, after: Text) returns (end: nat)
    requires depth > 0 && ValidContent(c)
    requires Sequences.From(text, at, Written(c, after))
    ensures Sequences.From(text, end, after)
    ensures CommentRest(text, at, depth) == CommentRest(text, end, depth)
    decreases c
  {
    hide Sequences.From;
    match c {
      case Done =>
        end := at;
      case Plain(u, rest) =>
        Sequences.After(text, at, u, Written(rest, after));
        end := WalksContent(text, at + 1, depth, rest, after);
      case Pair(u, rest) =>
        Sequences.After(text, at, BACKSLASH, [u] + Written(rest, after));
        Sequences.After(text, at + 1, u, Written(rest, after));
        end := WalksContent(text, at + 2, depth, rest, after);
      case Nested(inner, rest) =>
        var closed := [CLOSE] + Written(rest, after);
        Sequences.After(text, at, OPEN, Written(inner, closed));
        var close := WalksContent(text, at + 1, depth + 1, inner, closed);
        Sequences.After(text, close, CLOSE, Written(rest, after));
        end := WalksContent(text, close + 1, depth, rest, after);
    }
  }

  lemma CommentOpens(text: Text, start: nat)
    requires At(text, start, OPEN)
    ensures CommentEnd(text, start) == CommentRest(text, start + 1, 1)
  {
  }

  lemma CommentCloses(text: Text, at: nat)
    requires At(text, at, CLOSE)
    ensures CommentRest(text, at, 1) == Some(at + 1)
  {
  }

  /** The flat walk ends a comment exactly where its grammar does. */
  lemma CommentEndsWhereItCloses(text: Text, start: nat, c: Content, after: Text)
    requires ValidContent(c)
    requires Sequences.From(text, start, [OPEN] + Written(c, [CLOSE] + after))
    ensures At(text, start, OPEN) && |after| < |text|
    ensures CommentEnd(text, start) == Some(|text| - |after|)
  {
    hide Sequences.From, Written, CommentRest;
    Sequences.After(text, start, OPEN, Written(c, [CLOSE] + after));
    CommentOpens(text, start);
    var close := WalksContent(text, start + 1, 1, c, [CLOSE] + after);
    Sequences.After(text, close, CLOSE, after);
    CommentCloses(text, close);
    Sequences.FromLength(text, close + 1, after);
  }

  // ---------------------------------------------------------------------
  // Quoted strings
  // ---------------------------------------------------------------------

  lemma {:induction false} UnescapeEscape(t: Text)
    ensures Unescape(Escape(t)) == t
  {
    if t != [] {
      UnescapeEscape(t[1..]);
      var rest := Escape(t[1..]);
      assert t == [t[0]] + t[1..];
      if t[0] == BACKSLASH || t[0] == QUOTE {
        assert ([BACKSLASH, t[0]] + rest)[2..] == rest;
      } else {
        assert ([t[0]] + rest)[1..] == rest;
      }
    }
  }

  /** A body a quoted string may hold: no bare quote, no pair left open. */
  predicate Quotable(body: Text) {
    if body == [] then true
    else if body[0] == QUOTE then false
    else if body[0] == BACKSLASH then |body| > 1 && Quotable(body[2..])
    else Quotable(body[1..])
  }

  lemma {:induction false} EscapeQuotable(t: Text)
    ensures Quotable(Escape(t))
  {
    if t != [] {
      EscapeQuotable(t[1..]);
      var rest := Escape(t[1..]);
      if t[0] == BACKSLASH || t[0] == QUOTE {
        assert ([BACKSLASH, t[0]] + rest)[2..] == rest;
      } else {
        assert ([t[0]] + rest)[1..] == rest;
      }
    }
  }

  lemma {:induction false} QuotedBody(text: Text, at: nat, body: Text)
    requires Quotable(body)
    requires at + |body| < |text| && text[at..at + |body|] == body && text[at + |body|] == QUOTE
    ensures QuotedRest(text, at) == Some(at + |body| + 1)
    decreases |body|
  {
    if body != [] {
      var n := if body[0] == BACKSLASH then 2 else 1;
      assert text[at] == text[at..at + |body|][0];
      assert text[at + n..at + |body|] == body[n..] by {
        assert text[at + n..at + |body|] == text[at..at + |body|][n..];
      }
      QuotedBody(text, at + n, body[n..]);
    }
  }
}

/** Headers as the text on the wire: every character a written structure is
    spelled with, the reading of it, and which texts are pieces at all. */
module AuthHeaders {
  import opened Wrappers
  import opened AuthText
  import opened AuthResults
  import opened AuthGrammar
  import opened AuthRoundTrip
  import Sequences

  // ---------------------------------------------------------------------
  // A structure spelled out, one space for each gap
  // ---------------------------------------------------------------------

  function GapLine(gap: bool, rest: Text): Text {
    if gap then [' ' as int] + rest else rest
  }

  /** A quoted string's text, its quotes and backslashes behind a backslash. */
  function QuotedText(t: Text): Text {
    if t == [] then []
    else (if t[0] == '"' as int || t[0] == '\\' as int then ['\\' as int, t[0]] else [t[0]]) + QuotedText(t[1..])
  }

  function QuotedLine(t: Text, rest: Text): Text {
    ['"' as int] + (QuotedText(t) + (['"' as int] + rest))
  }

  function ValueLine(parts: seq<Part>, rest: Text): Text {
    if parts == [] then rest
    else
      match parts[0]
      case One(u) => [u] + ValueLine(parts[1..], rest)
      case Quoted(text) => QuotedLine(text, ValueLine(parts[1..], rest))
  }

  function AssignLine(p: Property, rest: Text): Text {
    ['=' as int] + GapLine(p.g4, ValueLine(p.value, rest))
  }

  function PropertyLine(p: Property, rest: Text): Text {
    p.ptype + GapLine(p.g1,
      match p.property
      case None => AssignLine(p, rest)
      case Some(property) => ['.' as int] + GapLine(p.g2, property + GapLine(p.g3, AssignLine(p, rest))))
  }

  function PropertiesLine(properties: seq<Property>, tail: bool): Text {
    if properties == [] then GapLine(tail, [])
    else [' ' as int] + PropertyLine(properties[0], PropertiesLine(properties[1..], tail))
  }

  function VersionLine(m: Method, rest: Text): Text
    requires m.Reported?
  {
    match m.version
    case None => rest
    case Some(version) => ['/' as int] + GapLine(m.g2, version + GapLine(m.g3, rest))
  }

  function ResultLine(m: Method): Text
    requires m.Reported?
  {
    ['=' as int] + GapLine(m.g4, m.result + PropertiesLine(m.properties, m.tail))
  }

  function MethodLine(m: Method): Text {
    match m
    case Reported(lead, name, g1, _, _, _, _, _, _, _) =>
      GapLine(lead, name + GapLine(g1, VersionLine(m, ResultLine(m))))
    case NoneReported(lead, word, tail) => GapLine(lead, word + GapLine(tail, []))
  }

  function TailLine(s: Server): Text {
    if s.versioned then [' ' as int] + (['1' as int] + GapLine(s.tail, [])) else GapLine(s.tail, [])
  }

  function ServerLine(s: Server): Text {
    GapLine(s.lead, if s.quoted then QuotedLine(s.id, TailLine(s)) else s.id + TailLine(s))
  }

  function MethodLines(methods: seq<Method>): seq<Text> {
    if methods == [] then [] else [MethodLine(methods[0])] + MethodLines(methods[1..])
  }

  function PieceLines(h: Header): seq<Text> {
    (if h.server.Some? then [ServerLine(h.server.value)] else []) + MethodLines(h.methods)
    + if h.closing.Some? then [GapLine(h.closing.value, [])] else []
  }

  function JoinedLine(lines: seq<Text>): Text
    requires lines != []
  {
    if |lines| == 1 then lines[0] else lines[0] + ([';' as int] + JoinedLine(lines[1..]))
  }

  function Line(h: Header): Text
    requires h.methods != []
  {
    JoinedLine(PieceLines(h))
  }

  // What may be written.

  predicate WordText(w: Text) {
    w != [] && forall i :: 0 <= i < |w| ==>
      || 'a' as int <= w[i] <= 'z' as int
      || 'A' as int <= w[i] <= 'Z' as int
      || '0' as int <= w[i] <= '9' as int
      || w[i] == '_' as int || w[i] == '-' as int
  }

  predicate DigitText(w: Text) {
    w != [] && forall i :: 0 <= i < |w| ==> '0' as int <= w[i] <= '9' as int
  }

  /** A unit that stands for itself outside quotes. */
  predicate BareUnit(u: Unit) {
    && u != ' ' as int && u != '\t' as int && u != '\r' as int && u != '\n' as int
    && u != '"' as int && u != '(' as int && u != ')' as int && u != ';' as int
  }

  predicate WritableProperty(p: Property) {
    && WordText(p.ptype) && (p.property.Some? ==> WordText(p.property.value))
    && p.value != [] && forall i :: 0 <= i < |p.value| && p.value[i].One? ==> BareUnit(p.value[i].u)
  }

  predicate WritableMethod(m: Method) {
    match m
    case Reported(_, name, _, version, _, _, _, result, properties, _) =>
      && WordText(name) && WordText(result) && (version.Some? ==> DigitText(version.value))
      && forall i :: 0 <= i < |properties| ==> WritableProperty(properties[i])
    case NoneReported(_, word, _) => WordText(word) && Word(word, "none")
  }

  predicate WritableServer(s: Server) {
    && ByteLength(s.id) <= 255
    && (forall i :: 0 <= i < |s.id| ==> s.id[i] >= 0x20 && !(0x7F <= s.id[i] < 0xA0))
    && (!s.quoted ==> s.id != [] && forall i :: 0 <= i < |s.id| ==> BareUnit(s.id[i]) && s.id[i] != '=' as int)
  }

  /** A header a server may write: up to 32 results, the first of them named
      where no server is. */
  predicate Writable(h: Header) {
    && 1 <= |h.methods| <= 32
    && (forall i :: 0 <= i < |h.methods| ==> WritableMethod(h.methods[i]))
    && (h.server.Some? ==> WritableServer(h.server.value))
    && (h.server.None? ==> h.methods[0].Reported?)
  }

  lemma WritableIsValid(h: Header)
    requires Writable(h)
    ensures ValidHeader(h)
  {
    forall i | 0 <= i < |h.methods| ensures ValidMethod(h.methods[i]) {
      MethodIsValid(h.methods[i]);
    }
    hide WritableMethod, ValidMethod, ByteLength;
  }

  lemma MethodIsValid(m: Method)
    requires WritableMethod(m)
    ensures ValidMethod(m)
  {
    if m.NoneReported? {
      ResultWords();
      WordIs(m.word, "none");
    } else {
      forall i | 0 <= i < |m.properties| ensures ValidProperty(m.properties[i]) {
        assert WritableProperty(m.properties[i]);
      }
    }
    hide Ascii, Lower;
  }

  // ---------------------------------------------------------------------
  // The line is what the tokens print as
  // ---------------------------------------------------------------------

  lemma {:induction false} EscapeIsQuoted(t: Text)
    ensures Escape(t) == QuotedText(t)
  {
    if t != [] {
      EscapeIsQuoted(t[1..]);
    }
  }

  lemma PrintGap(gap: bool, rest: Tokens)
    ensures Print(OptGap(gap, rest)) == GapLine(gap, Print(rest))
  {
  }

  lemma {:induction false} PrintValue(parts: seq<Part>, rest: Tokens)
    ensures Print(ValueTokens(parts, rest)) == ValueLine(parts, Print(rest))
  {
    if parts != [] {
      PrintValue(parts[1..], rest);
      if parts[0].Quoted? {
        EscapeIsQuoted(parts[0].text);
      }
    }
  }

  lemma PrintAssign(p: Property, rest: Tokens)
    ensures Print(AssignTokens(p, rest)) == AssignLine(p, Print(rest))
  {
    PrintValue(p.value, rest);
    PrintGap(p.g4, ValueTokens(p.value, rest));
  }

  lemma PrintWord(w: Text, gap: bool, rest: Tokens)
    ensures Print(Marks(w, OptGap(gap, rest))) == w + GapLine(gap, Print(rest))
  {
    PrintMarks(w, OptGap(gap, rest));
    PrintGap(gap, rest);
  }

  lemma PrintProperty(p: Property, rest: Tokens)
    ensures Print(PropertyTokens(p, rest)) == PropertyLine(p, Print(rest))
  {
    var assign := AssignTokens(p, rest);
    PrintAssign(p, rest);
    hide AssignTokens, AssignLine, OptGap, GapLine, Marks;
    if p.property.None? {
      PrintWord(p.ptype, p.g1, assign);
    } else {
      var property := Marks(p.property.value, OptGap(p.g3, assign));
      PrintWord(p.property.value, p.g3, assign);
      PrintGap(p.g2, property);
      PrintWord(p.ptype, p.g1, Mark(DOT, OptGap(p.g2, property)));
      assert Print(Mark(DOT, OptGap(p.g2, property))) == ['.' as int] + Print(OptGap(p.g2, property));
    }
  }

  lemma {:induction false} PrintProperties(properties: seq<Property>, tail: bool)
    ensures Print(PropertiesTokens(properties, tail)) == PropertiesLine(properties, tail)
  {
    if properties == [] {
      PrintGap(tail, End);
    } else {
      PrintProperties(properties[1..], tail);
      PrintProperty(properties[0], PropertiesTokens(properties[1..], tail));
      hide PropertyTokens, PropertyLine;
    }
  }

  lemma PrintVersion(m: Method, rest: Tokens)
    requires m.Reported?
    ensures Print(VersionTokens(m, rest)) == VersionLine(m, Print(rest))
  {
    if m.version.Some? {
      var version := Marks(m.version.value, OptGap(m.g3, rest));
      PrintWord(m.version.value, m.g3, rest);
      PrintGap(m.g2, version);
      assert Print(Mark(SLASH, OptGap(m.g2, version))) == ['/' as int] + Print(OptGap(m.g2, version));
    }
  }

  lemma PrintResult(m: Method)
    requires m.Reported?
    ensures Print(ResultTokens(m)) == ResultLine(m)
  {
    var properties := PropertiesTokens(m.properties, m.tail);
    PrintProperties(m.properties, m.tail);
    hide PropertiesTokens, PropertiesLine;
    PrintMarks(m.result, properties);
    PrintGap(m.g4, Marks(m.result, properties));
    assert Print(Mark(EQUALS, OptGap(m.g4, Marks(m.result, properties))))
      == ['=' as int] + Print(OptGap(m.g4, Marks(m.result, properties)));
  }

  lemma PrintMethod(m: Method)
    ensures Print(MethodTokens(m)) == MethodLine(m)
  {
    if m.Reported? {
      var rest := VersionTokens(m, ResultTokens(m));
      PrintResult(m);
      PrintVersion(m, ResultTokens(m));
      hide VersionTokens, ResultTokens, VersionLine, ResultLine;
      PrintWord(m.name, m.g1, rest);
      PrintGap(m.lead, Marks(m.name, OptGap(m.g1, rest)));
    } else {
      assert Print(End) == [];
      PrintWord(m.word, m.tail, End);
      PrintGap(m.lead, Marks(m.word, OptGap(m.tail, End)));
    }
  }

  lemma PrintTail(s: Server)
    ensures Print(TailTokens(s)) == TailLine(s)
  {
    assert Print(End) == [];
    PrintGap(s.tail, End);
    PrintWord(VERSION, s.tail, End);
  }

  lemma PrintServer(s: Server)
    ensures Print(ServerTokens(s)) == ServerLine(s)
  {
    PrintTail(s);
    EscapeIsQuoted(s.id);
    hide TailTokens, TailLine;
    PrintMarks(s.id, TailTokens(s));
    PrintGap(s.lead, Str(Escape(s.id), TailTokens(s)));
    PrintGap(s.lead, Marks(s.id, TailTokens(s)));
    assert Print(Str(Escape(s.id), TailTokens(s)))
      == ['"' as int] + (Escape(s.id) + (['"' as int] + Print(TailTokens(s))));
  }

  lemma {:induction false} PrintAhead(ts: Tokens, after: Tokens)
    requires Printable(ts)
    ensures Print(Ahead(ts, after)) == Print(ts) + Print(after)
  {
    match ts {
      case End => Sequences.Empty(Print(after));
      case Gap(rest) =>
        PrintAhead(rest, after);
        Sequences.Assoc([SPACE], Print(rest), Print(after));
      case Str(body, rest) =>
        PrintAhead(rest, after);
        Sequences.Assoc([QUOTE], Print(rest), Print(after));
        Sequences.Assoc(body, [QUOTE] + Print(rest), Print(after));
        Sequences.Assoc([QUOTE], body + ([QUOTE] + Print(rest)), Print(after));
      case Mark(u, rest) =>
        PrintAhead(rest, after);
        Sequences.Assoc([u], Print(rest), Print(after));
      case Semi(rest) =>
        PrintAhead(rest, after);
        Sequences.Assoc([SEMICOLON], Print(rest), Print(after));
    }
  }

  ghost predicate Prints(pieces: seq<Tokens>, lines: seq<Text>) {
    |pieces| == |lines| && forall i :: 0 <= i < |pieces| ==> Print(pieces[i]) == lines[i]
  }

  lemma {:induction false} PrintJoined(pieces: seq<Tokens>, lines: seq<Text>)
    requires pieces != [] && OnePieces(pieces) && Prints(pieces, lines)
    ensures Print(Joined(pieces)) == JoinedLine(lines)
  {
    if |pieces| > 1 {
      PrintJoined(pieces[1..], lines[1..]);
      AheadPrintable(pieces[0], End);
      PrintAhead(pieces[0], Semi(Joined(pieces[1..])));
    }
  }

  lemma PrintsThen(a: seq<Tokens>, b: seq<Text>, c: seq<Tokens>, d: seq<Text>)
    requires Prints(a, b) && Prints(c, d)
    ensures Prints(a + c, b + d)
  {
    hide Print;
  }

  lemma {:induction false} PrintMethods(methods: seq<Method>)
    ensures Prints(EachTokens(methods), MethodLines(methods))
  {
    if methods != [] {
      PrintMethod(methods[0]);
      hide MethodTokens, MethodLine, Print;
      PrintMethods(methods[1..]);
      PrintsThen([MethodTokens(methods[0])], [MethodLine(methods[0])],
        EachTokens(methods[1..]), MethodLines(methods[1..]));
    }
  }

  lemma PrintPieces(h: Header)
    ensures Prints(Pieces(h), PieceLines(h))
  {
    var server := if h.server.Some? then [ServerTokens(h.server.value)] else [];
    var serverLine := if h.server.Some? then [ServerLine(h.server.value)] else [];
    var closing := if h.closing.Some? then [OptGap(h.closing.value, End)] else [];
    var closingLine := if h.closing.Some? then [GapLine(h.closing.value, [])] else [];
    if h.server.Some? {
      PrintServer(h.server.value);
    }
    if h.closing.Some? {
      PrintGap(h.closing.value, End);
    }
    assert Prints(server, serverLine) && Prints(closing, closingLine);
    PrintMethods(h.methods);
    hide Prints, EachTokens, MethodLines, ServerTokens, ServerLine;
    PrintsThen(server, serverLine, EachTokens(h.methods), MethodLines(h.methods));
    PrintsThen(server + EachTokens(h.methods), serverLine + MethodLines(h.methods), closing, closingLine);
  }

  lemma LineIsPrinted(h: Header)
    requires ValidHeader(h)
    ensures Line(h) == Print(TokensOf(h))
  {
    HeaderPieces(h);
    PrintPieces(h);
    hide Prints, Pieces, PieceLines, Print, Joined, JoinedLine, OnePieces;
    PrintJoined(Pieces(h), PieceLines(h));
  }

  // ---------------------------------------------------------------------
  // The line reads back
  // ---------------------------------------------------------------------

  predicate NoFold(t: Text) {
    forall i :: 0 <= i < |t| - 1 ==> !(t[i] == '\n' as int && (t[i + 1] == ' ' as int || t[i + 1] == '\t' as int))
  }

  predicate FoldFree(h: Header) {
    forall i, j, k ::
      0 <= i < |h.methods| && h.methods[i].Reported? && 0 <= j < |h.methods[i].properties|
      && 0 <= k < |h.methods[i].properties[j].value| && h.methods[i].properties[j].value[k].Quoted? ==>
        NoFold(h.methods[i].properties[j].value[k].text)
  }

  lemma {:induction false} UnfoldNone(t: Text)
    requires NoFold(t)
    ensures Unfold(t) == t
  {
    if t != [] {
      assert NoFold(t[1..]) by {
        assert forall i :: 0 <= i < |t| - 1 ==> t[1..][i] == t[i + 1];
      }
      assert !Folds(t) && !Folds(t[1..]);
      UnfoldNone(t[1..]);
      Sequences.Cons(t);
    }
  }

  lemma {:induction false} PartsUnfolded(parts: seq<Part>)
    requires forall k :: 0 <= k < |parts| && parts[k].Quoted? ==> NoFold(parts[k].text)
    ensures UnfoldedParts(parts) == parts
  {
    if parts != [] {
      hide NoFold;
      PartsUnfolded(parts[1..]);
      if parts[0].Quoted? {
        UnfoldNone(parts[0].text);
      }
      Sequences.Cons(parts);
    }
  }

  lemma {:induction false} PropertiesUnfolded(properties: seq<Property>)
    requires forall j, k ::
      0 <= j < |properties| && 0 <= k < |properties[j].value| && properties[j].value[k].Quoted? ==>
      NoFold(properties[j].value[k].text)
    ensures UnfoldedProperties(properties) == properties
  {
    if properties != [] {
      hide NoFold;
      PartsUnfolded(properties[0].value);
      assert forall j :: 0 <= j < |properties| - 1 ==> properties[1..][j] == properties[j + 1];
      PropertiesUnfolded(properties[1..]);
      Sequences.Cons(properties);
    }
  }

  lemma HeaderUnfolded(h: Header)
    requires FoldFree(h)
    ensures UnfoldedHeader(h) == h
  {
    hide NoFold;
    forall i | 0 <= i < |h.methods| ensures UnfoldedMethod(h.methods[i]) == h.methods[i] {
      if h.methods[i].Reported? {
        PropertiesUnfolded(h.methods[i].properties);
      }
    }
    assert UnfoldedMethods(h.methods) == h.methods;
  }

  /** The promise of the parser, on the wire: whatever a server may write within
      8192 octets is told as it was written, with the folds of its quoted
      values taken out; and as it stands where they hold none. */
  lemma LineReadsBack(h: Header, lower: Text -> Text)
    requires Writable(h) && ByteLength(Line(h)) <= 8192
    ensures Told(Parse(Line(h), lower), UnfoldedHeader(h), lower)
    ensures FoldFree(h) ==> Told(Parse(Line(h), lower), h, lower)
  {
    hide Told, Parse, Line, ByteLength, TokensOf, Print, FoldFree;
    WritableIsValid(h);
    hide Writable, ValidHeader;
    LineIsPrinted(h);
    LengthWithinBytes(Line(h));
    PrintedHeaderReadsBack(h, lower);
    if FoldFree(h) {
      HeaderUnfolded(h);
    }
  }

  // ---------------------------------------------------------------------
  // What reads as pieces
  // ---------------------------------------------------------------------

  /** One unit outside quotes and comments, a whole comment, a whole string. */
  datatype Piece = Single(u: Unit) | Comment(content: Content) | Quote(body: Text)

  predicate ValidPiece(piece: Piece) {
    match piece
    case Single(u) => u != '(' as int && u != ')' as int && u != '"' as int
    case Comment(content) => ValidContent(content)
    case Quote(body) => Quotable(body)
  }

  function PieceText(piece: Piece): Text {
    match piece
    case Single(u) => [u]
    case Comment(content) => ['(' as int] + Written(content, [')' as int])
    case Quote(body) => ['"' as int] + (body + ['"' as int])
  }

  function PiecesText(pieces: seq<Piece>): Text {
    if pieces == [] then [] else PieceText(pieces[0]) + PiecesText(pieces[1..])
  }

  ghost predicate IsPieces(text: Text, pieces: seq<Piece>) {
    AllValid(pieces) && PiecesText(pieces) == text
  }

  lemma {:induction false} WrittenThen(c: Content, a: Text, b: Text)
    ensures Written(c, a) + b == Written(c, a + b)
  {
    match c {
      case Done =>
      case Plain(u, rest) =>
        WrittenThen(rest, a, b);
        Sequences.Assoc([u], Written(rest, a), b);
      case Pair(u, rest) =>
        WrittenThen(rest, a, b);
        Sequences.Assoc([u], Written(rest, a), b);
        Sequences.Assoc([BACKSLASH], [u] + Written(rest, a), b);
      case Nested(inner, rest) =>
        WrittenThen(rest, a, b);
        Sequences.Assoc([CLOSE], Written(rest, a), b);
        WrittenThen(inner, [CLOSE] + Written(rest, a), b);
        Sequences.Assoc([OPEN], Written(inner, [CLOSE] + Written(rest, a)), b);
    }
  }

  /** A piece ahead of a text ends where it was written to end. */
  lemma PieceReads(text: Text, at: nat, piece: Piece, rest: Text)
    requires ValidPiece(piece) && Sequences.From(text, at, PieceText(piece) + rest)
    ensures at < |text| && PieceEnd(text, at) == Some(|text| - |rest|)
  {
    match piece {
      case Single(u) => Sequences.After(text, at, u, rest);
      case Comment(content) =>
        Sequences.Assoc([OPEN], Written(content, [CLOSE]), rest);
        WrittenThen(content, [CLOSE], rest);
        CommentEndsWhereItCloses(text, at, content, rest);
        hide CommentEnd;
      case Quote(body) =>
        Sequences.Assoc(body, [QUOTE], rest);
        Sequences.Assoc([QUOTE], body + [QUOTE], rest);
        PrintedQuoted(text, at, body, rest);
        hide QuotedEnd;
    }
  }

  /** Where a first piece ends, and that the rest stands behind it. */
  lemma FirstPiece(text: Text, at: nat, piece: Piece, rest: Text)
    requires ValidPiece(piece) && Sequences.From(text, at, PieceText(piece) + rest)
    ensures |rest| <= |text| && at < |text| - |rest| && PieceEnd(text, at) == Some(|text| - |rest|)
    ensures Sequences.From(text, |text| - |rest|, rest)
  {
    PieceReads(text, at, piece, rest);
    hide Sequences.From, PieceEnd, PieceText, ValidPiece;
    Sequences.AfterAll(text, at, PieceText(piece), rest);
    Sequences.FromLength(text, at + |PieceText(piece)|, rest);
  }

  predicate AllValid(pieces: seq<Piece>) {
    pieces == [] || (ValidPiece(pieces[0]) && AllValid(pieces[1..]))
  }

  lemma {:induction false} PiecesRead(text: Text, at: nat, pieces: seq<Piece>)
    requires AllValid(pieces) && Sequences.From(text, at, PiecesText(pieces))
    ensures at <= |text| && HeaderTokens(text, at).Some?
    decreases |pieces|
  {
    hide HeaderTokens, PieceEnd, PieceText, ValidPiece, Sequences.From;
    if pieces == [] {
      Sequences.FromLength(text, at, []);
      NoneAhead(text);
    } else {
      var rest := PiecesText(pieces[1..]);
      FirstPiece(text, at, pieces[0], rest);
      PiecesRead(text, |text| - |rest|, pieces[1..]);
      TokensGoOn(text, at, |text| - |rest|);
    }
  }

  lemma TokensGoOn(text: Text, at: nat, end: nat)
    requires at < end <= |text| && PieceEnd(text, at) == Some(end) && HeaderTokens(text, end).Some?
    ensures HeaderTokens(text, at).Some?
  {
    hide PieceEnd;
  }

  lemma FirstOf(text: Text, at: nat, end: nat)
    requires at < end <= |text|
    ensures text[at..end] == [text[at]] + text[at + 1..end]
  {
  }

  lemma Between(text: Text, from: nat, at: nat, to: nat)
    requires from <= at <= to <= |text|
    ensures text[from..to] == text[from..at] + text[at..to]
  {
  }

  predicate ReachesClose(text: Text, at: nat, depth: nat, content: Content, close: nat)
    requires depth > 0
  {
    && at <= close < |text| && ValidContent(content) && text[at..close + 1] == Written(content, [CLOSE])
    && CommentRest(text, at, depth)
       == if depth == 1 then Some(close + 1) else CommentRest(text, close + 1, depth - 1)
  }

  lemma NestedReaches(text: Text, at: nat, depth: nat, inner: Content, closed: nat, rest: Content, close: nat)
    requires depth > 0 && At(text, at, OPEN)
    requires ReachesClose(text, at + 1, depth + 1, inner, closed) && ReachesClose(text, closed + 1, depth, rest, close)
    ensures ReachesClose(text, at, depth, Nested(inner, rest), close)
  {
    WrittenThen(inner, [CLOSE], Written(rest, [CLOSE]));
    FirstOf(text, at, close + 1);
    Between(text, at + 1, closed + 1, close + 1);
  }

  lemma PairReaches(text: Text, at: nat, depth: nat, rest: Content, close: nat)
    requires depth > 0 && At(text, at, BACKSLASH) && ReachesClose(text, at + 2, depth, rest, close)
    ensures ReachesClose(text, at, depth, Pair(text[at + 1], rest), close)
  {
    FirstOf(text, at, close + 1);
    FirstOf(text, at + 1, close + 1);
  }

  lemma PlainReaches(text: Text, at: nat, depth: nat, rest: Content, close: nat)
    requires depth > 0 && at < |text| && text[at] != OPEN && text[at] != CLOSE && text[at] != BACKSLASH
    requires ReachesClose(text, at + 1, depth, rest, close)
    ensures ReachesClose(text, at, depth, Plain(text[at], rest), close)
  {
    FirstOf(text, at, close + 1);
  }

  /** From inside a comment to where it closes stands written content. */
  lemma {:induction false} ContentOf(text: Text, at: nat, depth: nat) returns (content: Content, close: nat)
    requires depth > 0 && CommentRest(text, at, depth).Some?
    ensures ReachesClose(text, at, depth, content, close)
    decreases |text| - at
  {
    var rest;
    if text[at] == CLOSE {
      content, close := Done, at;
      assert text[at..at + 1] == [CLOSE];
    } else if text[at] == OPEN {
      var inner, closed := ContentOf(text, at + 1, depth + 1);
      rest, close := ContentOf(text, closed + 1, depth);
      content := Nested(inner, rest);
      hide ReachesClose;
      NestedReaches(text, at, depth, inner, closed, rest, close);
    } else if text[at] == BACKSLASH {
      rest, close := ContentOf(text, at + 2, depth);
      content := Pair(text[at + 1], rest);
      hide ReachesClose;
      PairReaches(text, at, depth, rest, close);
    } else {
      rest, close := ContentOf(text, at + 1, depth);
      content := Plain(text[at], rest);
      hide ReachesClose;
      PlainReaches(text, at, depth, rest, close);
    }
  }

  lemma {:induction false} BodyOf(text: Text, at: nat, end: nat)
    requires QuotedRest(text, at) == Some(end)
    ensures at < end <= |text| && Quotable(text[at..end - 1]) && text[end - 1] == QUOTE
    decreases |text| - at
  {
    if text[at] != QUOTE {
      var n := if text[at] == BACKSLASH then 2 else 1;
      BodyOf(text, at + n, end);
      var body := text[at..end - 1];
      assert body[0] == text[at] && body[n..] == text[at + n..end - 1];
    }
  }

  lemma PieceOf(text: Text, at: nat) returns (piece: Piece)
    requires at < |text| && PieceEnd(text, at).Some?
    ensures ValidPiece(piece) && text[at..PieceEnd(text, at).value] == PieceText(piece)
  {
    var end := PieceEnd(text, at).value;
    if text[at] == OPEN {
      CommentOpens(text, at);
      var content, close := ContentOf(text, at + 1, 1);
      piece := Comment(content);
      assert text[at..close + 1] == [OPEN] + text[at + 1..close + 1];
    } else if text[at] == QUOTE {
      BodyOf(text, at + 1, end);
      piece := Quote(text[at + 1..end - 1]);
      assert text[at..end] == [QUOTE] + (text[at + 1..end - 1] + [QUOTE]);
    } else {
      piece := Single(text[at]);
      assert text[at..at + 1] == [text[at]];
    }
  }

  lemma {:induction false} PiecesOf(text: Text, at: nat) returns (pieces: seq<Piece>)
    requires at <= |text| && HeaderTokens(text, at).Some?
    ensures IsPieces(text[at..], pieces)
    decreases |text| - at
  {
    if at == |text| {
      pieces := [];
    } else {
      var end := PieceEnd(text, at).value;
      var piece := PieceOf(text, at);
      var rest := PiecesOf(text, end);
      hide PieceEnd, PieceText, ValidPiece;
      pieces := [piece] + rest;
      Sequences.Behind(piece, rest);
      Sequences.Cut(text, at, end);
    }
  }

  /** A text has tokens exactly when it is whole pieces, one behind the other:
      no comment and no quoted string is left open, and no parenthesis closes
      what none opened. */
  lemma TokensExactly(text: Text)
    ensures HeaderTokens(text, 0).Some? <==> exists pieces :: IsPieces(text, pieces)
  {
    Sequences.From0(text);
    if HeaderTokens(text, 0).Some? {
      var pieces := PiecesOf(text, 0);
    }
    if exists pieces :: IsPieces(text, pieces) {
      var pieces :| IsPieces(text, pieces);
      PiecesRead(text, 0, pieces);
    }
  }

  /** So a header that is not, once unfolded, is refused. */
  lemma BrokenRefused(header: Text, lower: Text -> Text)
    requires forall pieces :: !IsPieces(Unfold(header), pieces)
    ensures Parse(header, lower) == None
  {
    TokensExactly(Unfold(header));
    SplitAgrees(Unfold(header));
    hide HeaderTokens, SplitClauses, Unfold;
  }
}

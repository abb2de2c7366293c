/** The readers of the Authentication-Results parser (section 2.2 of RFC 8601)
    as index walks over the header. The lower case of a domain is the
    platform's, so it is a parameter; every keyword is ASCII. */
module AuthResults {
  import opened Wrappers
  import opened AuthText
  import Sequences

  const MAX_BYTES := 8192
  const MAX_CLAUSES := 32
  const SERVER_MAX_BYTES := 255
  const VERSION: Text := [49]

  datatype Verdict = Pass | Fail | Nothing | Unknown

  datatype Results = Results(server: Option<Text>, spf: Verdict, dkim: Verdict, dmarc: Verdict, dmarcFrom: Option<Text>)

  /** A piece of a clause and the index where the next piece starts. */
  datatype Read<V> = Read(value: V, end: nat)

  datatype Spec = Spec(name: Text, verdict: Verdict)

  datatype Clause = Clause(name: Text, verdict: Verdict, from: Option<Text>)

  datatype Head = Head(server: Option<Text>, clauses: seq<Text>)

  // ---------------------------------------------------------------------
  // The header cut into clauses
  // ---------------------------------------------------------------------

  /** What a piece that splits nothing leaves in its clause. */
  function Spelled(text: Text, at: nat, end: nat): Text
    requires at < end <= |text|
  {
    if text[at] == OPEN then [SPACE] else text[at..end]
  }

  function Prepended(head: Text, clauses: seq<Text>): seq<Text>
    requires clauses != []
  {
    [head + clauses[0]] + clauses[1..]
  }

  /** Every clause from an index on, the closing one included. */
  function ClauseTexts(text: Text, at: nat): (clauses: Option<seq<Text>>)
    requires at <= |text|
    ensures clauses.Some? ==> clauses.value != []
    decreases |text| - at
  {
    if at == |text| then Some([[]])
    else
      match PieceEnd(text, at)
      case None => None
      case Some(end) =>
        match ClauseTexts(text, end)
        case None => None
        case Some(rest) =>
          if text[at] == SEMICOLON then Some([[]] + rest) else Some(Prepended(Spelled(text, at, end), rest))
  }

  predicate Blank(clause: Text) {
    SkipSpace(clause, 0) == |clause|
  }

  /** The clauses without an empty closing piece. */
  function WithoutClosing(clauses: seq<Text>): (kept: seq<Text>)
    requires clauses != []
    ensures kept != []
  {
    if |clauses| > 1 && Blank(clauses[|clauses| - 1]) then clauses[..|clauses| - 1] else clauses
  }

  function SplitClauses(text: Text): (clauses: Option<seq<Text>>)
    ensures clauses.Some? ==> clauses.value != []
  {
    match ClauseTexts(text, 0)
    case None => None
    case Some(clauses) => Some(WithoutClosing(clauses))
  }

  lemma ClosesClause(clauses: seq<Text>, clause: Text, rest: seq<Text>)
    requires rest != []
    ensures clauses + Prepended(clause, [[]] + rest) == clauses + [clause] + Prepended([], rest)
  {
    Sequences.Empty(clause);
    Sequences.Empty(rest[0]);
    Sequences.Cons(rest);
    Sequences.Parts([[]], rest);
    Sequences.Assoc(clauses, [clause], Prepended([], rest));
  }

  lemma ExtendsClause(clauses: seq<Text>, clause: Text, piece: Text, rest: seq<Text>)
    requires rest != []
    ensures clauses + Prepended(clause, Prepended(piece, rest)) == clauses + Prepended(clause + piece, rest)
  {
    Sequences.Assoc(clause, piece, rest[0]);
  }

  method CutClauses(text: Text) returns (cut: Option<seq<Text>>)
    ensures cut == SplitClauses(text)
  {
    var clauses: seq<Text> := [];
    var clause: Text := [];
    var at := 0;
    ghost var all := ClauseTexts(text, 0);
    if all.Some? {
      Sequences.Empty(all.value[0]);
      Sequences.Cons(all.value);
      Sequences.Empty(all.value);
    }
    hide PieceEnd, Prepended;
    while at < |text|
      invariant at <= |text|
      invariant ClauseTexts(text, at).None? ==> all.None?
      invariant ClauseTexts(text, at).Some? ==>
        all == Some(clauses + Prepended(clause, ClauseTexts(text, at).value))
    {
      var c := text[at];
      var end := PieceEnd(text, at);
      if end.None? {
        return None;
      }
      if ClauseTexts(text, end.value).Some? {
        var rest := ClauseTexts(text, end.value).value;
        if c == SEMICOLON {
          ClosesClause(clauses, clause, rest);
        } else {
          ExtendsClause(clauses, clause, Spelled(text, at, end.value), rest);
        }
      }
      if c == SEMICOLON {
        clauses := clauses + [clause];
        clause := [];
      } else {
        clause := clause + if c == OPEN then [SPACE] else text[at..end.value];
      }
      at := end.value;
    }
    LastClause(clauses, clause);
    if clauses == [] || SkipSpace(clause, 0) < |clause| {
      clauses := clauses + [clause];
    }
    cut := Some(clauses);
  }

  lemma LastClause(clauses: seq<Text>, clause: Text)
    ensures clauses + Prepended(clause, [[]]) == clauses + [clause]
    ensures WithoutClosing(clauses + [clause])
         == if clauses == [] || SkipSpace(clause, 0) < |clause| then clauses + [clause] else clauses
  {
    Sequences.Empty(clause);
    Sequences.Parts(clauses, [clause]);
  }

  // ---------------------------------------------------------------------
  // Words, quoted strings, the server
  // ---------------------------------------------------------------------

  function ReadQuoted(text: Text, start: nat): (read: Option<Read<Text>>)
    requires At(text, start, QUOTE)
    ensures read.Some? ==> start < read.value.end <= |text|
  {
    match QuotedEnd(text, start)
    case None => None
    case Some(end) => Some(Read(Unescape(text[start + 1..end - 1]), end))
  }

  /** A keyword with the whitespace around it. */
  function ReadWord(text: Text, start: nat): (read: Option<Read<Text>>)
    requires start <= |text|
    ensures read.Some? ==> start < read.value.end <= |text|
  {
    var from := SkipSpace(text, start);
    var to := RunEnd(text, from, Keyword);
    if to == from then None else Some(Read(text[from..to], SkipSpace(text, to)))
  }

  /** What follows an authserv-id: nothing, or whitespace and the version. */
  predicate FitsVersion(rest: Text) {
    || SkipSpace(rest, 0) == |rest|
    || var version := ReadWord(rest, 0);
       && version.Some? && IsSpace(rest[0])
       && version.value.value == VERSION && version.value.end == |rest|
  }

  predicate HoldsControl(t: Text) {
    exists i :: 0 <= i < |t| && IsControl(t[i])
  }

  function ReadServer(text: Text): Option<Text> {
    var start := SkipSpace(text, 0);
    var bare := RunEnd(text, start, Bare);
    var id := if At(text, start, QUOTE) then ReadQuoted(text, start) else Some(Read(text[start..bare], bare));
    if id.None? || id.value.end == start || !FitsVersion(text[id.value.end..]) then None
    else if ByteLength(id.value.value) > SERVER_MAX_BYTES || HoldsControl(id.value.value) then None
    else Some(id.value.value)
  }

  /** The server and its result clauses; a first piece that holds an equals
      sign and opens no quoted string is a clause already. */
  function ReadHead(pieces: seq<Text>): Option<Head> {
    var first := if pieces == [] then [] else pieces[0];
    if !At(first, SkipSpace(first, 0), QUOTE) && EQUALS in first then Some(Head(None, pieces))
    else
      match ReadServer(first)
      case None => None
      case Some(server) => Some(Head(Some(server), if pieces == [] then [] else pieces[1..]))
  }

  // ---------------------------------------------------------------------
  // One clause
  // ---------------------------------------------------------------------

  /** Whether a method has the version read here; one that names none has it. */
  function ReadVersion(text: Text, at: nat): (read: Option<Read<bool>>)
    requires at <= |text|
    ensures read.Some? ==> at <= read.value.end <= |text|
  {
    if !At(text, at, SLASH) then Some(Read(true, at))
    else
      match ReadWord(text, at + 1)
      case None => None
      case Some(version) =>
        if exists i :: 0 <= i < |version.value| && !IsDigit(version.value[i]) then None
        else Some(Read(version.value == VERSION, version.end))
  }

  // What a word and a version are, letter by letter.

  ghost predicate Letter(u: Unit) {
    u < 128
    && var c := u as char;
      'a' <= c <= 'z' || 'A' <= c <= 'Z' || '0' <= c <= '9' || c == '_' || c == '-'
  }

  ghost predicate White(u: Unit) {
    u == ' ' as int || u == '\t' as int || u == '\r' as int || u == '\n' as int
  }

  /** White space, every letter there is, and all white space behind them. */
  ghost predicate WordAt(text: Text, start: nat, from: nat, to: nat, end: nat) {
    && start <= from < to <= end <= |text|
    && (forall i :: start <= i < from || to <= i < end ==> White(text[i]))
    && (forall i :: from <= i < to ==> Letter(text[i]))
    && (to < |text| ==> !Letter(text[to]))
    && (end < |text| ==> !White(text[end]))
  }

  lemma {:induction false} RunIsLongest(text: Text, start: nat, end: nat, chars: Class)
    requires start <= end <= |text|
    requires forall i :: start <= i < end ==> In(text[i], chars)
    requires end < |text| ==> !In(text[end], chars)
    ensures RunEnd(text, start, chars) == end
    decreases end - start
  {
    if start < end {
      RunIsLongest(text, start + 1, end, chars);
    }
  }

  lemma {:induction false} RunHolds(text: Text, start: nat, chars: Class)
    requires start <= |text|
    ensures var end := RunEnd(text, start, chars);
      (forall i :: start <= i < end ==> In(text[i], chars)) && (end < |text| ==> !In(text[end], chars))
    decreases |text| - start
  {
    if start < |text| && In(text[start], chars) {
      RunHolds(text, start + 1, chars);
    }
  }

  lemma ClassesTold(u: Unit)
    ensures In(u, Keyword) <==> Letter(u)
    ensures In(u, Space) <==> White(u)
  {
  }

  /** A word is read exactly where one stands, and it is that one. */
  lemma WordExactly(text: Text, start: nat, word: Read<Text>)
    requires start <= |text|
    ensures ReadWord(text, start) == Some(word)
      <==> exists from: nat, to: nat :: WordAt(text, start, from, to, word.end) && word.value == text[from..to]
  {
    if ReadWord(text, start) == Some(word) {
      var from, to := WordFound(text, start, word);
    }
    if from: nat, to: nat :| WordAt(text, start, from, to, word.end) && word.value == text[from..to] {
      WordReads(text, start, from, to, word.end);
    }
  }

  lemma WordFound(text: Text, start: nat, word: Read<Text>) returns (from: nat, to: nat)
    requires start <= |text| && ReadWord(text, start) == Some(word)
    ensures WordAt(text, start, from, to, word.end) && word.value == text[from..to]
  {
    AllTold();
    hide In, Letter, White, RunEnd;
    from := SkipSpace(text, start);
    to := RunEnd(text, from, Keyword);
    RunHolds(text, start, Space);
    RunHolds(text, from, Keyword);
    RunHolds(text, to, Space);
  }

  lemma WordReads(text: Text, start: nat, from: nat, to: nat, end: nat)
    requires WordAt(text, start, from, to, end)
    ensures ReadWord(text, start) == Some(Read(text[from..to], end))
  {
    AllTold();
    LetterIsNotWhite(text[from]);
    hide In, Letter, White, RunEnd;
    RunIsLongest(text, start, from, Space);
    RunIsLongest(text, from, to, Keyword);
    RunIsLongest(text, to, end, Space);
  }

  lemma AllTold()
    ensures forall u :: (In(u, Keyword) <==> Letter(u)) && (In(u, Space) <==> White(u))
  {
    forall u: Unit ensures (In(u, Keyword) <==> Letter(u)) && (In(u, Space) <==> White(u)) {
      ClassesTold(u);
    }
  }

  lemma LetterIsNotWhite(u: Unit)
    ensures Letter(u) ==> !White(u)
  {
  }

  /** No slash names the version read here; behind one stands a word of digits,
      and `1` alone is that version. */
  lemma VersionExactly(text: Text, at: nat, version: Read<bool>)
    requires at <= |text|
    ensures ReadVersion(text, at) == Some(version) <==>
      if at == |text| || text[at] != '/' as int then version == Read(true, at)
      else exists from: nat, to: nat ::
        && WordAt(text, at + 1, from, to, version.end)
        && (forall i :: from <= i < to ==> '0' as int <= text[i] <= '9' as int)
        && (version.value <==> text[from..to] == ['1' as int])
  {
    if at < |text| && text[at] == '/' as int {
      if ReadVersion(text, at) == Some(version) {
        var from, to := VersionFound(text, at, version);
      }
      hide ReadVersion, WordAt;
      if from: nat, to: nat :|
        && WordAt(text, at + 1, from, to, version.end)
        && (forall i :: from <= i < to ==> '0' as int <= text[i] <= '9' as int)
        && (version.value <==> text[from..to] == ['1' as int])
      {
        VersionReads(text, at, from, to, version);
      }
    }
  }

  lemma VersionReads(text: Text, at: nat, from: nat, to: nat, version: Read<bool>)
    requires at < |text| && text[at] == '/' as int && WordAt(text, at + 1, from, to, version.end)
    requires forall i :: from <= i < to ==> '0' as int <= text[i] <= '9' as int
    requires version.value <==> text[from..to] == ['1' as int]
    ensures ReadVersion(text, at) == Some(version)
  {
    WordReads(text, at + 1, from, to, version.end);
    hide ReadWord;
    assert forall i :: 0 <= i < to - from ==> text[from..to][i] == text[from + i];
  }

  lemma VersionFound(text: Text, at: nat, version: Read<bool>) returns (from: nat, to: nat)
    requires at < |text| && text[at] == '/' as int && ReadVersion(text, at) == Some(version)
    ensures WordAt(text, at + 1, from, to, version.end)
    ensures forall i :: from <= i < to ==> '0' as int <= text[i] <= '9' as int
    ensures version.value <==> text[from..to] == ['1' as int]
  {
    var word := ReadWord(text, at + 1).value;
    WordExactly(text, at + 1, word);
    from, to :| WordAt(text, at + 1, from, to, word.end) && word.value == text[from..to];
    forall i | from <= i < to ensures '0' as int <= text[i] <= '9' as int {
      assert text[i] == word.value[i - from];
    }
  }

  function VerdictOf(result: Text): Verdict {
    var word := Lower(result);
    if word == Ascii("pass") then Pass
    else if word == Ascii("fail") || word == Ascii("softfail") || word == Ascii("hardfail") then Fail
    else if word == Ascii("none") then Nothing
    else Unknown
  }

  function ReadSpec(text: Text): (read: Option<Read<Spec>>)
    ensures read.Some? ==> read.value.end <= |text|
  {
    match ReadWord(text, 0)
    case None => None
    case Some(name) =>
      match ReadVersion(text, name.end)
      case None => None
      case Some(version) =>
        if !At(text, version.end, EQUALS) then None
        else
          match ReadWord(text, version.end + 1)
          case None => None
          case Some(result) =>
            var verdict := if version.value then VerdictOf(result.value) else Unknown;
            Some(Read(Spec(Lower(name.value), verdict), result.end))
  }

  /** A ptype with a dot and a property, or a bare word. */
  function ReadName(text: Text, start: nat): (read: Option<Read<Text>>)
    requires start <= |text|
    ensures read.Some? ==> start < read.value.end <= |text|
  {
    match ReadWord(text, start)
    case None => None
    case Some(ptype) =>
      if !At(text, ptype.end, DOT) then Some(ptype)
      else
        match ReadWord(text, ptype.end + 1)
        case None => None
        case Some(property) => Some(Read(ptype.value + [DOT] + property.value, property.end))
  }

  /** Quoted strings and any other units up to the next whitespace. */
  function ReadUnits(text: Text, at: nat): (read: Option<Read<Text>>)
    requires at <= |text|
    ensures read.Some? ==> at <= read.value.end <= |text|
    decreases |text| - at
  {
    if at == |text| || IsSpace(text[at]) then Some(Read([], at))
    else
      var piece := if text[at] == QUOTE then ReadQuoted(text, at) else Some(Read([text[at]], at + 1));
      match piece
      case None => None
      case Some(piece) =>
        match ReadUnits(text, piece.end)
        case None => None
        case Some(rest) => Some(Read(piece.value + rest.value, rest.end))
  }

  function ReadValue(text: Text, start: nat): (read: Option<Read<Text>>)
    requires start <= |text|
    ensures read.Some? ==> start < read.value.end <= |text|
  {
    match ReadUnits(text, start)
    case None => None
    case Some(read) => if read.end == start then None else Some(read)
  }

  method ScanValue(text: Text, start: nat) returns (read: Option<Read<Text>>)
    requires start <= |text|
    ensures read == ReadValue(text, start)
  {
    var value: Text := [];
    var at := start;
    ghost var all := ReadUnits(text, start);
    if all.Some? { Sequences.Empty(all.value.value); }
    hide ReadQuoted;
    while at < |text| && !IsSpace(text[at])
      invariant start <= at <= |text|
      invariant ReadUnits(text, at).None? ==> all.None?
      invariant ReadUnits(text, at).Some? ==>
        all == Some(Read(value + ReadUnits(text, at).value.value, ReadUnits(text, at).value.end))
      decreases |text| - at
    {
      var piece := if text[at] == QUOTE then ReadQuoted(text, at) else Some(Read([text[at]], at + 1));
      if piece.None? {
        return None;
      }
      if ReadUnits(text, piece.value.end).Some? {
        Sequences.Assoc(value, piece.value.value, ReadUnits(text, piece.value.end).value.value);
      }
      value := value + piece.value.value;
      at := piece.value.end;
    }
    Sequences.Empty(value);
    read := if at == start then None else Some(Read(value, at));
  }

  function WithProperty(properties: map<Text, Text>, name: Text, value: Text): map<Text, Text> {
    if Lower(name) in properties then properties else properties[Lower(name) := value]
  }

  /** The properties that fill the rest of a clause, the first value per name. */
  function ReadProperties(text: Text, at: nat, properties: map<Text, Text>): Option<map<Text, Text>>
    requires at <= |text|
    decreases |text| - at
  {
    if at == |text| then Some(properties)
    else
      match ReadName(text, at)
      case None => None
      case Some(name) =>
        if !At(text, name.end, EQUALS) then None
        else
          match ReadValue(text, SkipSpace(text, name.end + 1))
          case None => None
          case Some(value) =>
            ReadProperties(text, SkipSpace(text, value.end), WithProperty(properties, name.value, value.value))
  }

  method ScanProperties(text: Text, start: nat) returns (read: Option<map<Text, Text>>)
    requires start <= |text|
    ensures read == ReadProperties(text, start, map[])
  {
    hide ReadName, ReadValue, WithProperty;
    var properties: map<Text, Text> := map[];
    var at := start;
    while at < |text|
      invariant at <= |text|
      invariant ReadProperties(text, at, properties) == ReadProperties(text, start, map[])
      decreases |text| - at
    {
      var name := ReadName(text, at);
      if name.None? || !At(text, name.value.end, EQUALS) {
        return None;
      }
      var from := SkipSpace(text, name.value.end + 1);
      var value := ScanValue(text, from);
      if value.None? {
        return None;
      }
      properties := WithProperty(properties, name.value.value, value.value.value);
      at := SkipSpace(text, value.value.end);
    }
    read := Some(properties);
  }

  const FROM: Text := Ascii("header.from")

  function WithoutClosingDot(t: Text): Text {
    if t != [] && t[|t| - 1] == DOT then t[..|t| - 1] else t
  }

  /** The domain a clause names in its first `header.from`. */
  function FromOf(properties: map<Text, Text>, lower: Text -> Text): Option<Text> {
    if FROM in properties then Some(WithoutClosingDot(lower(properties[FROM]))) else None
  }

  function ReadClause(text: Text, lower: Text -> Text): Option<Clause> {
    match ReadSpec(text)
    case None => None
    case Some(spec) =>
      match ReadProperties(text, spec.end, map[])
      case None => None
      case Some(properties) => Some(Clause(spec.value.name, spec.value.verdict, FromOf(properties, lower)))
  }

  // ---------------------------------------------------------------------
  // The whole header
  // ---------------------------------------------------------------------

  /** The bare `none` of a header without results, in any case. */
  predicate NoResult(text: Text) {
    var from := SkipSpace(text, 0);
    var to := RunEnd(text, from, Keyword);
    Lower(text[from..to]) == Ascii("none") && SkipSpace(text, to) == |text|
  }

  function ReadEach(texts: seq<Text>, lower: Text -> Text): Option<seq<Clause>> {
    if texts == [] then Some([])
    else if NoResult(texts[0]) then ReadEach(texts[1..], lower)
    else
      match ReadClause(texts[0], lower)
      case None => None
      case Some(clause) =>
        match ReadEach(texts[1..], lower)
        case None => None
        case Some(rest) => Some([clause] + rest)
  }

  function ReadClauses(texts: seq<Text>, lower: Text -> Text): Option<seq<Clause>> {
    if texts == [] || |texts| > MAX_CLAUSES then None else ReadEach(texts, lower)
  }

  method ScanClauses(texts: seq<Text>, lower: Text -> Text) returns (read: Option<seq<Clause>>)
    ensures read == ReadClauses(texts, lower)
  {
    if texts == [] || |texts| > MAX_CLAUSES {
      return None;
    }
    hide ReadClause, NoResult;
    var clauses: seq<Clause> := [];
    ghost var all := ReadEach(texts, lower);
    assert texts[0..] == texts;
    if all.Some? { Sequences.Empty(all.value); }
    for i := 0 to |texts|
      invariant ReadEach(texts[i..], lower).None? ==> all.None?
      invariant ReadEach(texts[i..], lower).Some? ==> all == Some(clauses + ReadEach(texts[i..], lower).value)
    {
      Sequences.Front(texts, i);
      if NoResult(texts[i]) {
        continue;
      }
      var clause := ReadClause(texts[i], lower);
      if clause.None? {
        return None;
      }
      if ReadEach(texts[i + 1..], lower).Some? {
        Sequences.Assoc(clauses, [clause.value], ReadEach(texts[i + 1..], lower).value);
      }
      clauses := clauses + [clause.value];
    }
    Sequences.Empty(clauses);
    read := Some(clauses);
  }

  predicate Occurs(clauses: seq<Clause>, name: Text, verdict: Verdict) {
    exists i :: 0 <= i < |clauses| && clauses[i].name == name && clauses[i].verdict == verdict
  }

  function Rank(verdict: Verdict): nat {
    match verdict
    case Pass => 3
    case Fail => 2
    case Unknown => 1
    case Nothing => 0
  }

  /** The best verdict that occurs for a method; nothing where none does. */
  function Best(clauses: seq<Clause>, name: Text): (best: Verdict)
    ensures best == Nothing || Occurs(clauses, name, best)
    ensures forall verdict :: Occurs(clauses, name, verdict) ==> Rank(verdict) <= Rank(best)
  {
    if Occurs(clauses, name, Pass) then Pass
    else if Occurs(clauses, name, Fail) then Fail
    else if Occurs(clauses, name, Unknown) then Unknown
    else Nothing
  }

  /** The clauses of one method, in order. */
  function Of(clauses: seq<Clause>, name: Text): (named: seq<Clause>)
    ensures |named| <= |clauses|
  {
    if clauses == [] then []
    else (if clauses[0].name == name then [clauses[0]] else []) + Of(clauses[1..], name)
  }

  function Summarize(server: Option<Text>, clauses: seq<Clause>): Option<Results> {
    var dmarc := Of(clauses, Ascii("dmarc"));
    if |dmarc| > 1 then None
    else Some(Results(
      server,
      Best(clauses, Ascii("spf")),
      Best(clauses, Ascii("dkim")),
      if dmarc == [] then Nothing else dmarc[0].verdict,
      if dmarc == [] then None else dmarc[0].from))
  }

  predicate WithinBounds(header: Text) {
    |header| <= MAX_BYTES && ByteLength(header) <= MAX_BYTES
  }

  function Parse(header: Text, lower: Text -> Text): Option<Results> {
    if !WithinBounds(header) then None
    else
      match SplitClauses(Unfold(header))
      case None => None
      case Some(pieces) =>
        match ReadHead(pieces)
        case None => None
        case Some(head) =>
          match ReadClauses(head.clauses, lower)
          case None => None
          case Some(clauses) => Summarize(head.server, clauses)
  }

  method ParseAuthenticationResults(header: Text, lower: Text -> Text) returns (results: Option<Results>)
    ensures results == Parse(header, lower)
  {
    hide SplitClauses, ReadHead, ReadClauses, Summarize;
    if |header| > MAX_BYTES || ByteLength(header) > MAX_BYTES {
      return None;
    }
    var pieces := CutClauses(Unfold(header));
    if pieces.None? {
      return None;
    }
    var head := ReadHead(pieces.value);
    if head.None? {
      return None;
    }
    var clauses := ScanClauses(head.value.clauses, lower);
    if clauses.None? {
      return None;
    }
    results := Summarize(head.value.server, clauses.value);
  }
}

/** The header as tokens and the grammar of section 2.2 of RFC 8601 over them,
    and the proof that the index walks of `AuthResults` read exactly that
    grammar. Whitespace and comments of any length are one `Gap`. */
module AuthGrammar {
  import opened Wrappers
  import opened AuthText
  import opened AuthResults
  import Sequences

  /** `Torn` is a quoted string that never closes. */
  datatype Tokens =
    | End
    | Gap(rest: Tokens)
    | Str(body: Text, rest: Tokens)
    | Mark(u: Unit, rest: Tokens)
    | Semi(rest: Tokens)
    | Torn

  function Count(ts: Tokens): nat {
    match ts
    case End | Torn => 0
    case Gap(rest) => 1 + Count(rest)
    case Str(_, rest) => 1 + Count(rest)
    case Mark(_, rest) => 1 + Count(rest)
    case Semi(rest) => 1 + Count(rest)
  }

  function Gapped(ts: Tokens): Tokens {
    if ts.Gap? then ts else Gap(ts)
  }

  /** The tokens of a clause, whose comments are gone. */
  function Lex(text: Text, at: nat): Tokens
    requires at <= |text|
    decreases |text| - at
  {
    if at == |text| then End
    else if IsSpace(text[at]) then Gapped(Lex(text, at + 1))
    else if text[at] == QUOTE then
      match QuotedEnd(text, at)
      case None => Torn
      case Some(end) => Str(text[at + 1..end - 1], Lex(text, end))
    else Mark(text[at], Lex(text, at + 1))
  }

  /** The tokens of a header; nothing where a comment or a quoted string never
      closes or a parenthesis closes nothing. */
  function HeaderTokens(text: Text, at: nat): Option<Tokens>
    requires at <= |text|
    decreases |text| - at
  {
    if at == |text| then Some(End)
    else
      match PieceEnd(text, at)
      case None => None
      case Some(end) =>
        match HeaderTokens(text, end)
        case None => None
        case Some(rest) =>
          if text[at] == OPEN || IsSpace(text[at]) then Some(Gapped(rest))
          else if text[at] == QUOTE then Some(Str(text[at + 1..end - 1], rest))
          else if text[at] == SEMICOLON then Some(Semi(rest))
          else Some(Mark(text[at], rest))
  }

  // ---------------------------------------------------------------------
  // The grammar
  // ---------------------------------------------------------------------

  datatype Parsed<V> = Parsed(value: V, rest: Tokens)

  function SkipGap(ts: Tokens): (rest: Tokens)
    ensures Count(rest) <= Count(ts)
  {
    if ts.Gap? then ts.rest else ts
  }

  function Run(ts: Tokens, chars: Class): (run: Parsed<Text>)
    ensures Count(run.rest) <= Count(ts)
    ensures run.value != [] ==> Count(run.rest) < Count(ts)
  {
    if ts.Mark? && In(ts.u, chars) then
      var run := Run(ts.rest, chars);
      Parsed([ts.u] + run.value, run.rest)
    else Parsed([], ts)
  }

  function WordOf(ts: Tokens): (word: Option<Parsed<Text>>)
    ensures word.Some? ==> Count(word.value.rest) < Count(ts)
  {
    var run := Run(SkipGap(ts), Keyword);
    if run.value == [] then None else Some(Parsed(run.value, SkipGap(run.rest)))
  }

  predicate Opens(ts: Tokens, u: Unit) {
    ts.Mark? && ts.u == u
  }

  function VersionOf(ts: Tokens): (version: Option<Parsed<bool>>)
    ensures version.Some? ==> Count(version.value.rest) <= Count(ts)
  {
    if !Opens(ts, SLASH) then Some(Parsed(true, ts))
    else
      match WordOf(ts.rest)
      case None => None
      case Some(version) =>
        if exists i :: 0 <= i < |version.value| && !IsDigit(version.value[i]) then None
        else Some(Parsed(version.value == VERSION, version.rest))
  }

  function SpecOf(ts: Tokens): (spec: Option<Parsed<Spec>>)
    ensures spec.Some? ==> Count(spec.value.rest) < Count(ts)
  {
    match WordOf(ts)
    case None => None
    case Some(name) =>
      match VersionOf(name.rest)
      case None => None
      case Some(version) =>
        if !Opens(version.rest, EQUALS) then None
        else
          match WordOf(version.rest.rest)
          case None => None
          case Some(result) =>
            var verdict := if version.value then VerdictOf(result.value) else Unknown;
            Some(Parsed(Spec(Lower(name.value), verdict), result.rest))
  }

  function NameOf(ts: Tokens): (name: Option<Parsed<Text>>)
    ensures name.Some? ==> Count(name.value.rest) < Count(ts)
  {
    match WordOf(ts)
    case None => None
    case Some(ptype) =>
      if !Opens(ptype.rest, DOT) then Some(ptype)
      else
        match WordOf(ptype.rest.rest)
        case None => None
        case Some(property) => Some(Parsed(ptype.value + [DOT] + property.value, property.rest))
  }

  function UnitsOf(ts: Tokens): (units: Option<Parsed<Text>>)
    ensures units.Some? ==> Count(units.value.rest) <= Count(ts)
  {
    match ts
    case Torn => None
    case Str(body, rest) =>
      (match UnitsOf(rest)
       case None => None
       case Some(units) => Some(Parsed(Unescape(body) + units.value, units.rest)))
    case Mark(u, rest) =>
      (match UnitsOf(rest)
       case None => None
       case Some(units) => Some(Parsed([u] + units.value, units.rest)))
    case _ => Some(Parsed([], ts))
  }

  function ValueOf(ts: Tokens): (value: Option<Parsed<Text>>)
    ensures value.Some? ==> Count(value.value.rest) <= Count(ts)
  {
    if ts.Str? || ts.Mark? then UnitsOf(ts) else None
  }

  function PropertiesOf(ts: Tokens, properties: map<Text, Text>): Option<map<Text, Text>>
    decreases Count(ts)
  {
    if ts.End? then Some(properties)
    else
      match NameOf(ts)
      case None => None
      case Some(name) =>
        if !Opens(name.rest, EQUALS) then None
        else
          match ValueOf(SkipGap(name.rest.rest))
          case None => None
          case Some(value) =>
            PropertiesOf(SkipGap(value.rest), WithProperty(properties, name.value, value.value))
  }

  function ClauseOf(ts: Tokens, lower: Text -> Text): Option<Clause> {
    match SpecOf(ts)
    case None => None
    case Some(spec) =>
      match PropertiesOf(spec.rest, map[])
      case None => None
      case Some(properties) => Some(Clause(spec.value.name, spec.value.verdict, FromOf(properties, lower)))
  }

  predicate NoResultOf(ts: Tokens) {
    var run := Run(SkipGap(ts), Keyword);
    Lower(run.value) == Ascii("none") && SkipGap(run.rest).End?
  }

  predicate FitsOf(ts: Tokens) {
    SkipGap(ts).End? || (ts.Gap? && WordOf(ts) == Some(Parsed(VERSION, End)))
  }

  function ServerOf(ts: Tokens): Option<Text> {
    var start := SkipGap(ts);
    var id := if start.Str? then Parsed(Unescape(start.body), start.rest) else Run(start, Bare);
    if !start.Str? && id.value == [] then None
    else if !FitsOf(id.rest) then None
    else if ByteLength(id.value) > SERVER_MAX_BYTES || HoldsControl(id.value) then None
    else Some(id.value)
  }

  predicate Holds(ts: Tokens, u: Unit) {
    match ts
    case End | Torn => false
    case Gap(rest) => Holds(rest, u)
    case Str(body, rest) => u in body || Holds(rest, u)
    case Mark(v, rest) => v == u || Holds(rest, u)
    case Semi(rest) => Holds(rest, u)
  }

  /** The clauses between semicolons. */
  function Clauses(ts: Tokens): (clauses: seq<Tokens>)
    ensures clauses != []
  {
    match ts
    case End | Torn => [ts]
    case Semi(rest) => [End] + Clauses(rest)
    case Gap(rest) => var tail := Clauses(rest); [Gapped(tail[0])] + tail[1..]
    case Str(body, rest) => var tail := Clauses(rest); [Str(body, tail[0])] + tail[1..]
    case Mark(u, rest) => var tail := Clauses(rest); [Mark(u, tail[0])] + tail[1..]
  }

  predicate BlankOf(ts: Tokens) {
    SkipGap(ts).End?
  }

  function WithoutBlank(clauses: seq<Tokens>): (kept: seq<Tokens>)
    requires clauses != []
    ensures kept != []
  {
    if |clauses| > 1 && BlankOf(clauses[|clauses| - 1]) then clauses[..|clauses| - 1] else clauses
  }

  datatype HeadTokens = HeadTokens(server: Option<Text>, clauses: seq<Tokens>)

  function HeadOf(pieces: seq<Tokens>): Option<HeadTokens>
    requires pieces != []
  {
    if !SkipGap(pieces[0]).Str? && Holds(pieces[0], EQUALS) then Some(HeadTokens(None, pieces))
    else
      match ServerOf(pieces[0])
      case None => None
      case Some(server) => Some(HeadTokens(Some(server), pieces[1..]))
  }

  function EachOf(clauses: seq<Tokens>, lower: Text -> Text): Option<seq<Clause>> {
    if clauses == [] then Some([])
    else if NoResultOf(clauses[0]) then EachOf(clauses[1..], lower)
    else
      match ClauseOf(clauses[0], lower)
      case None => None
      case Some(clause) =>
        match EachOf(clauses[1..], lower)
        case None => None
        case Some(rest) => Some([clause] + rest)
  }

  /** What the grammar makes of a header's tokens. */
  function ResultsOf(ts: Tokens, lower: Text -> Text): Option<Results> {
    match HeadOf(WithoutBlank(Clauses(ts)))
    case None => None
    case Some(head) =>
      if head.clauses == [] || |head.clauses| > MAX_CLAUSES then None
      else
        match EachOf(head.clauses, lower)
        case None => None
        case Some(clauses) => Summarize(head.server, clauses)
  }

  // ---------------------------------------------------------------------
  // The index walks read the grammar
  // ---------------------------------------------------------------------

  /** A read and a parse that answer the same and stand at the same place. */
  ghost predicate Agree<V>(text: Text, read: Option<Read<V>>, parsed: Option<Parsed<V>>) {
    match (read, parsed)
    case (None, None) => true
    case (Some(r), Some(p)) => r.value == p.value && r.end <= |text| && Lex(text, r.end) == p.rest
    case _ => false
  }

  lemma {:induction false} LexSkip(text: Text, at: nat)
    requires at <= |text|
    ensures Lex(text, SkipSpace(text, at)) == SkipGap(Lex(text, at))
    decreases |text| - at
  {
    if at < |text| && IsSpace(text[at]) {
      LexSkip(text, at + 1);
    }
  }

  lemma {:induction false} LexRun(text: Text, at: nat, chars: Class)
    requires at <= |text| && chars != Space
    ensures var end := RunEnd(text, at, chars);
      Run(Lex(text, at), chars) == Parsed(text[at..end], Lex(text, end))
    decreases |text| - at
  {
    if at < |text| && In(text[at], chars) {
      LexRun(text, at + 1, chars);
      var end := RunEnd(text, at + 1, chars);
      Sequences.Front(text[..end], at);
      Sequences.Cons(text[at..end]);
    } else {
      assert text[at..at] == [];
    }
  }

  lemma LexMark(text: Text, at: nat, u: Unit)
    requires at <= |text| && IsBare(u)
    ensures At(text, at, u) <==> Opens(Lex(text, at), u)
    ensures At(text, at, u) ==> Lex(text, at + 1) == Lex(text, at).rest
  {
  }

  lemma LexEnd(text: Text, at: nat)
    requires at <= |text|
    ensures Lex(text, at).End? <==> at == |text|
    ensures Lex(text, at).Gap? <==> at < |text| && IsSpace(text[at])
    ensures Lex(text, at).Str? || Lex(text, at).Torn? <==> At(text, at, QUOTE)
    ensures !Lex(text, at).Semi?
  {
  }

  lemma WordAgrees(text: Text, at: nat)
    requires at <= |text|
    ensures Agree(text, ReadWord(text, at), WordOf(Lex(text, at)))
  {
    LexSkip(text, at);
    var from := SkipSpace(text, at);
    LexRun(text, from, Keyword);
    LexSkip(text, RunEnd(text, from, Keyword));
  }

  lemma VersionAgrees(text: Text, at: nat)
    requires at <= |text|
    ensures Agree(text, ReadVersion(text, at), VersionOf(Lex(text, at)))
  {
    LexMark(text, at, SLASH);
    hide Lex, ReadWord, WordOf;
    if At(text, at, SLASH) {
      WordAgrees(text, at + 1);
    }
  }

  lemma SpecAgrees(text: Text)
    ensures Agree(text, ReadSpec(text), SpecOf(Lex(text, 0)))
  {
    hide Lex, ReadWord, WordOf, ReadVersion, VersionOf, VerdictOf, Lower;
    WordAgrees(text, 0);
    if ReadWord(text, 0).Some? {
      var name := ReadWord(text, 0).value;
      VersionAgrees(text, name.end);
      if ReadVersion(text, name.end).Some? {
        var version := ReadVersion(text, name.end).value;
        LexMark(text, version.end, EQUALS);
        if At(text, version.end, EQUALS) {
          WordAgrees(text, version.end + 1);
        }
      }
    }
  }

  lemma NameAgrees(text: Text, at: nat)
    requires at <= |text|
    ensures Agree(text, ReadName(text, at), NameOf(Lex(text, at)))
  {
    hide Lex, ReadWord, WordOf;
    WordAgrees(text, at);
    if ReadWord(text, at).Some? {
      var ptype := ReadWord(text, at).value;
      LexMark(text, ptype.end, DOT);
      if At(text, ptype.end, DOT) {
        WordAgrees(text, ptype.end + 1);
      }
    }
  }

  lemma {:induction false} UnitsAgree(text: Text, at: nat)
    requires at <= |text|
    ensures Agree(text, ReadUnits(text, at), UnitsOf(Lex(text, at)))
    decreases |text| - at
  {
    if at < |text| && !IsSpace(text[at]) {
      var piece := if text[at] == QUOTE then ReadQuoted(text, at) else Some(Read([text[at]], at + 1));
      if piece.Some? {
        UnitsAgree(text, piece.value.end);
      }
    }
  }

  lemma {:induction false} UnitsMove(text: Text, at: nat)
    requires at <= |text| && ReadUnits(text, at).Some?
    ensures ReadUnits(text, at).value.end == at <==> at == |text| || IsSpace(text[at])
    decreases |text| - at
  {
    if at < |text| && !IsSpace(text[at]) {
      var piece := if text[at] == QUOTE then ReadQuoted(text, at) else Some(Read([text[at]], at + 1));
      UnitsMove(text, piece.value.end);
    }
  }

  lemma ValueAgrees(text: Text, at: nat)
    requires at <= |text|
    ensures Agree(text, ReadValue(text, at), ValueOf(Lex(text, at)))
  {
    UnitsAgree(text, at);
    LexEnd(text, at);
    if ReadUnits(text, at).Some? {
      UnitsMove(text, at);
    }
    hide Lex, ReadUnits;
  }

  lemma {:induction false} PropertiesAgree(text: Text, at: nat, properties: map<Text, Text>)
    requires at <= |text|
    ensures ReadProperties(text, at, properties) == PropertiesOf(Lex(text, at), properties)
    decreases |text| - at
  {
    hide Lex, ReadName, NameOf, ReadValue, ValueOf, WithProperty, SkipSpace, SkipGap;
    LexEnd(text, at);
    if at < |text| {
      NameAgrees(text, at);
      if ReadName(text, at).Some? {
        var name := ReadName(text, at).value;
        LexMark(text, name.end, EQUALS);
        if At(text, name.end, EQUALS) {
          LexSkip(text, name.end + 1);
          var from := SkipSpace(text, name.end + 1);
          ValueAgrees(text, from);
          if ReadValue(text, from).Some? {
            var value := ReadValue(text, from).value;
            LexSkip(text, value.end);
            PropertiesAgree(text, SkipSpace(text, value.end), WithProperty(properties, name.value, value.value));
          }
        }
      }
    }
  }

  lemma ClauseAgrees(text: Text, lower: Text -> Text)
    ensures ReadClause(text, lower) == ClauseOf(Lex(text, 0), lower)
  {
    hide Lex, ReadSpec, SpecOf, ReadProperties, PropertiesOf;
    SpecAgrees(text);
    if ReadSpec(text).Some? {
      PropertiesAgree(text, ReadSpec(text).value.end, map[]);
    }
  }

  lemma NoResultAgrees(text: Text)
    ensures NoResult(text) <==> NoResultOf(Lex(text, 0))
  {
    LexSkip(text, 0);
    var from := SkipSpace(text, 0);
    LexRun(text, from, Keyword);
    var to := RunEnd(text, from, Keyword);
    LexSkip(text, to);
    LexEnd(text, SkipSpace(text, to));
    hide Lex, SkipSpace, Run, RunEnd, SkipGap;
  }

  // A text behind another reads as it does alone.

  lemma {:induction false} QuotedBehind(head: Text, tail: Text, at: nat)
    requires at <= |tail|
    ensures QuotedRest(head + tail, |head| + at)
         == match QuotedRest(tail, at) case None => None case Some(end) => Some(|head| + end)
    decreases |tail| - at
  {
    if at < |tail| && tail[at] != QUOTE && !(tail[at] == BACKSLASH && at + 1 == |tail|) {
      QuotedBehind(head, tail, at + if tail[at] == BACKSLASH then 2 else 1);
    }
  }

  lemma SliceBehind(head: Text, tail: Text, from: nat, to: nat)
    requires from <= to <= |tail|
    ensures (head + tail)[|head| + from..|head| + to] == tail[from..to]
  {
  }

  lemma LexQuotedAt(text: Text, at: nat)
    requires at < |text| && text[at] == QUOTE
    ensures Lex(text, at) == match QuotedEnd(text, at)
      case None => Torn
      case Some(end) => Str(text[at + 1..end - 1], Lex(text, end))
  {
  }

  lemma LexOneAt(text: Text, at: nat)
    requires at < |text| && text[at] != QUOTE
    ensures Lex(text, at)
         == if IsSpace(text[at]) then Gapped(Lex(text, at + 1)) else Mark(text[at], Lex(text, at + 1))
  {
  }

  lemma LexQuotedBehind(head: Text, tail: Text, at: nat, end: nat)
    requires at < end <= |tail| && tail[at] == QUOTE && QuotedEnd(tail, at) == Some(end)
    requires Lex(head + tail, |head| + end) == Lex(tail, end)
    ensures Lex(head + tail, |head| + at) == Lex(tail, at)
  {
    hide Lex, QuotedRest;
    assert (head + tail)[|head| + at] == tail[at];
    QuotedBehind(head, tail, at + 1);
    LexQuotedAt(tail, at);
    LexQuotedAt(head + tail, |head| + at);
    hide QuotedEnd;
    SliceBehind(head, tail, at + 1, end - 1);
  }

  lemma {:induction false} LexBehind(head: Text, tail: Text, at: nat)
    requires at <= |tail|
    ensures Lex(head + tail, |head| + at) == Lex(tail, at)
    decreases |tail| - at
  {
    if at < |tail| {
      hide Lex, QuotedRest;
      assert (head + tail)[|head| + at] == tail[at];
      if tail[at] == QUOTE {
        if QuotedEnd(tail, at).Some? {
          LexBehind(head, tail, QuotedEnd(tail, at).value);
          LexQuotedBehind(head, tail, at, QuotedEnd(tail, at).value);
        } else {
          QuotedBehind(head, tail, at + 1);
          LexQuotedAt(tail, at);
          LexQuotedAt(head + tail, |head| + at);
        }
      } else {
        LexBehind(head, tail, at + 1);
        LexOneAt(tail, at);
        LexOneAt(head + tail, |head| + at);
      }
    }
  }

  lemma {:induction false} QuotedAlone(text: Text, start: nat, at: nat, end: nat, tail: Text)
    requires start <= at && QuotedRest(text, at) == Some(end) && end <= |text|
    ensures QuotedRest(text[start..end] + tail, at - start) == Some(end - start)
    decreases |text| - at
  {
    assert (text[start..end] + tail)[at - start] == text[at];
    if text[at] != QUOTE {
      QuotedAlone(text, start, at + if text[at] == BACKSLASH then 2 else 1, end, tail);
    }
  }

  lemma BodyAlone(text: Text, at: nat, end: nat, tail: Text)
    requires at + 1 < end <= |text|
    ensures (text[at..end] + tail)[1..end - at - 1] == text[at + 1..end - 1]
  {
    var piece := text[at..end];
    assert (piece + tail)[1..end - at - 1] == piece[1..end - at - 1];
    Sequences.Slices(text, at, end, 1, end - at - 1);
  }

  /** One piece ahead of a clause is one token ahead of its tokens. */
  lemma LexAhead(text: Text, at: nat, end: nat, clause: Text)
    requires at < end <= |text| && PieceEnd(text, at) == Some(end) && text[at] != SEMICOLON
    ensures Lex(Spelled(text, at, end) + clause, 0)
         == if text[at] == OPEN || IsSpace(text[at]) then Gapped(Lex(clause, 0))
            else if text[at] == QUOTE then Str(text[at + 1..end - 1], Lex(clause, 0))
            else Mark(text[at], Lex(clause, 0))
  {
    var piece := Spelled(text, at, end);
    LexBehind(piece, clause, 0);
    hide Lex;
    if text[at] == QUOTE {
      QuotedAlone(text, at, at + 1, end, clause);
      LexQuotedAt(piece + clause, 0);
      BodyAlone(text, at, end, clause);
    } else {
      assert |piece| == 1;
      LexOneAt(piece + clause, 0);
    }
  }

  ghost predicate SameClauses(texts: seq<Text>, tokens: seq<Tokens>) {
    |texts| == |tokens| && forall i :: 0 <= i < |texts| ==> Lex(texts[i], 0) == tokens[i]
  }

  lemma SameAhead(texts: seq<Text>, tokens: seq<Tokens>, text: Text, first: Tokens)
    requires SameClauses(texts, tokens) && Lex(text, 0) == first
    ensures SameClauses([text] + texts, [first] + tokens)
    ensures texts != [] ==> SameClauses([text] + texts[1..], [first] + tokens[1..])
  {
    hide Lex;
  }

  lemma LexBlank()
    ensures Lex([], 0) == End
  {
  }

  lemma SameFirst(texts: seq<Text>, tokens: seq<Tokens>)
    requires SameClauses(texts, tokens) && texts != []
    ensures tokens != [] && Lex(texts[0], 0) == tokens[0]
  {
  }

  lemma ClausesStep(text: Text, at: nat, end: nat)
    requires at < end <= |text| && PieceEnd(text, at) == Some(end)
    requires HeaderTokens(text, end).Some? && ClauseTexts(text, end).Some?
    requires SameClauses(ClauseTexts(text, end).value, Clauses(HeaderTokens(text, end).value))
    ensures HeaderTokens(text, at).Some? && ClauseTexts(text, at).Some?
    ensures SameClauses(ClauseTexts(text, at).value, Clauses(HeaderTokens(text, at).value))
  {
    hide PieceEnd, Spelled, SameClauses, Lex;
    var texts, rest := ClauseTexts(text, end).value, HeaderTokens(text, end).value;
    if text[at] == SEMICOLON {
      LexBlank();
      SameAhead(texts, Clauses(rest), [], End);
    } else {
      LexAhead(text, at, end, texts[0]);
      SameFirst(texts, Clauses(rest));
      var first := Spelled(text, at, end) + texts[0];
      SameAhead(texts, Clauses(rest), first, Lex(first, 0));
    }
  }

  /** Cutting the text and cutting its tokens give the same clauses. */
  lemma {:induction false} ClausesLex(text: Text, at: nat)
    requires at <= |text|
    ensures HeaderTokens(text, at).None? <==> ClauseTexts(text, at).None?
    ensures HeaderTokens(text, at).Some? ==>
      SameClauses(ClauseTexts(text, at).value, Clauses(HeaderTokens(text, at).value))
    decreases |text| - at
  {
    hide SameClauses;
    if at == |text| {
      LexBlank();
      SameOne([], End);
    } else if PieceEnd(text, at).Some? {
      var end := PieceEnd(text, at).value;
      ClausesLex(text, end);
      if HeaderTokens(text, end).Some? {
        ClausesStep(text, at, end);
      }
      hide PieceEnd;
    }
  }

  lemma SameOne(text: Text, clause: Tokens)
    requires Lex(text, 0) == clause
    ensures SameClauses([text], [clause])
  {
  }

  // The clauses joined again.

  /** The header with one space for each outermost comment. */
  function Stripped(text: Text, at: nat): Option<Text>
    requires at <= |text|
    decreases |text| - at
  {
    if at == |text| then Some([])
    else
      match PieceEnd(text, at)
      case None => None
      case Some(end) =>
        match Stripped(text, end)
        case None => None
        case Some(rest) => Some(Spelled(text, at, end) + rest)
  }

  function JoinedTexts(clauses: seq<Text>): Text
    requires clauses != []
  {
    if |clauses| == 1 then clauses[0] else clauses[0] + ([SEMICOLON] + JoinedTexts(clauses[1..]))
  }

  lemma JoinedAhead(piece: Text, clauses: seq<Text>)
    requires clauses != []
    ensures JoinedTexts(Prepended(piece, clauses)) == piece + JoinedTexts(clauses)
    ensures JoinedTexts([[]] + clauses) == [SEMICOLON] + JoinedTexts(clauses)
  {
    Sequences.Parts([[]], clauses);
    Sequences.Empty([SEMICOLON] + JoinedTexts(clauses));
    Sequences.Parts([piece + clauses[0]], clauses[1..]);
    if |clauses| > 1 {
      Sequences.Assoc(piece, clauses[0], [SEMICOLON] + JoinedTexts(clauses[1..]));
    }
  }

  /** Joined with semicolons the clauses are the header with one space for
      each outermost comment. */
  lemma {:induction false} ClausesJoin(text: Text, at: nat)
    requires at <= |text|
    ensures Stripped(text, at).None? <==> ClauseTexts(text, at).None?
    ensures Stripped(text, at).Some? ==> Stripped(text, at) == Some(JoinedTexts(ClauseTexts(text, at).value))
    decreases |text| - at
  {
    hide Prepended, JoinedTexts;
    if at < |text| && PieceEnd(text, at).Some? {
      var end := PieceEnd(text, at).value;
      ClausesJoin(text, end);
      if ClauseTexts(text, end).Some? {
        JoinedAhead(Spelled(text, at, end), ClauseTexts(text, end).value);
        assert text[at] == SEMICOLON ==> Spelled(text, at, end) == [SEMICOLON];
      }
      hide PieceEnd;
    } else if at == |text| {
      JoinedOne([]);
    }
  }

  lemma JoinedOne(clause: Text)
    ensures JoinedTexts([clause]) == clause
  {
  }

  /** What a split drops is at most one blank closing piece. */
  lemma SplitJoins(text: Text)
    ensures SplitClauses(text).None? <==> Stripped(text, 0).None?
    ensures SplitClauses(text).Some? ==>
      || Stripped(text, 0) == Some(JoinedTexts(SplitClauses(text).value))
      || exists closing ::
           && Blank(closing)
           && Stripped(text, 0) == Some(JoinedTexts(SplitClauses(text).value + [closing]))
  {
    ClausesJoin(text, 0);
    if ClauseTexts(text, 0).Some? {
      var clauses := ClauseTexts(text, 0).value;
      var n := |clauses| - 1;
      Sequences.Split(clauses, n);
      assert clauses[n..] == [clauses[n]];
      assert clauses == clauses[..n] + [clauses[n]];
    }
  }

  lemma BlankAgrees(clause: Text)
    ensures Blank(clause) <==> BlankOf(Lex(clause, 0))
  {
    LexSkip(clause, 0);
    LexEnd(clause, SkipSpace(clause, 0));
  }

  lemma SplitAgrees(text: Text)
    ensures HeaderTokens(text, 0).None? <==> SplitClauses(text).None?
    ensures HeaderTokens(text, 0).Some? ==>
      SameClauses(SplitClauses(text).value, WithoutBlank(Clauses(HeaderTokens(text, 0).value)))
  {
    ClausesLex(text, 0);
    if HeaderTokens(text, 0).Some? {
      var texts := ClauseTexts(text, 0).value;
      BlankAgrees(texts[|texts| - 1]);
    }
  }

  lemma {:induction false} HoldsAgrees(text: Text, at: nat, u: Unit)
    requires at <= |text| && IsBare(u) && !HoldsTorn(Lex(text, at))
    ensures Holds(Lex(text, at), u) <==> u in text[at..]
    decreases |text| - at
  {
    if at < |text| {
      Sequences.Front(text, at);
      Sequences.Cons(text[at..]);
      if text[at] == QUOTE {
        var end := QuotedEnd(text, at).value;
        HoldsAgrees(text, end, u);
        InQuoted(text, at, end, u);
      } else {
        HoldsAgrees(text, at + 1, u);
      }
    }
  }

  lemma InQuoted(text: Text, at: nat, end: nat, u: Unit)
    requires at + 1 < end <= |text| && text[at] == QUOTE && text[end - 1] == QUOTE && u != QUOTE
    ensures u in text[at..] <==> u in text[at + 1..end - 1] || u in text[end..]
  {
    var body := text[at + 1..end - 1];
    assert text[at..] == [QUOTE] + body + [QUOTE] + text[end..];
  }

  predicate HoldsTorn(ts: Tokens) {
    match ts
    case End => false
    case Torn => true
    case Gap(rest) => HoldsTorn(rest)
    case Str(_, rest) => HoldsTorn(rest)
    case Mark(_, rest) => HoldsTorn(rest)
    case Semi(rest) => HoldsTorn(rest)
  }

  /** No clause of a header that splits holds a torn string. */
  lemma {:induction false} NoTornClause(text: Text, at: nat)
    requires at <= |text| && HeaderTokens(text, at).Some?
    ensures forall i :: 0 <= i < |Clauses(HeaderTokens(text, at).value)| ==>
      !HoldsTorn(Clauses(HeaderTokens(text, at).value)[i])
    decreases |text| - at
  {
    if at < |text| {
      NoTornClause(text, PieceEnd(text, at).value);
    }
  }

  lemma FitsAgrees(text: Text, at: nat)
    requires at <= |text|
    ensures FitsVersion(text[at..]) <==> FitsOf(Lex(text, at))
  {
    var rest := text[at..];
    Sequences.Split(text, at);
    LexBehind(text[..at], rest, 0);
    LexSkip(rest, 0);
    LexEnd(rest, SkipSpace(rest, 0));
    LexEnd(rest, 0);
    WordAgrees(rest, 0);
    hide Lex, SkipSpace, WordOf;
    if ReadWord(rest, 0).Some? {
      LexEnd(rest, ReadWord(rest, 0).value.end);
    }
  }

  lemma ServerAgrees(text: Text)
    requires !HoldsTorn(Lex(text, 0))
    ensures ReadServer(text) == ServerOf(Lex(text, 0))
  {
    LexSkip(text, 0);
    var start := SkipSpace(text, 0);
    LexEnd(text, start);
    LexRun(text, start, Bare);
    FitsAgrees(text, RunEnd(text, start, Bare));
    if At(text, start, QUOTE) {
      LexString(text, start);
      FitsAgrees(text, QuotedEnd(text, start).value);
    }
    hide Lex, FitsVersion, FitsOf, HoldsControl, ByteLength;
  }

  lemma LexString(text: Text, at: nat)
    requires At(text, at, QUOTE) && !Lex(text, at).Torn?
    ensures QuotedEnd(text, at).Some?
    ensures var end := QuotedEnd(text, at).value;
      Lex(text, at) == Str(text[at + 1..end - 1], Lex(text, end))
  {
  }

  lemma HeadAgrees(texts: seq<Text>, tokens: seq<Tokens>)
    requires texts != [] && SameClauses(texts, tokens) && !HoldsTorn(tokens[0])
    ensures ReadHead(texts).None? <==> HeadOf(tokens).None?
    ensures ReadHead(texts).Some? ==>
      && ReadHead(texts).value.server == HeadOf(tokens).value.server
      && SameClauses(ReadHead(texts).value.clauses, HeadOf(tokens).value.clauses)
  {
    var first := texts[0];
    assert Lex(first, 0) == tokens[0];
    HoldsAgrees(first, 0, EQUALS);
    assert first[0..] == first;
    LexSkip(first, 0);
    LexEnd(first, SkipSpace(first, 0));
    ServerAgrees(first);
    hide Lex, ReadServer, ServerOf, Holds;
  }

  lemma {:induction false} EachAgrees(texts: seq<Text>, tokens: seq<Tokens>, lower: Text -> Text)
    requires SameClauses(texts, tokens)
    ensures ReadEach(texts, lower) == EachOf(tokens, lower)
  {
    if texts != [] {
      assert Lex(texts[0], 0) == tokens[0];
      NoResultAgrees(texts[0]);
      ClauseAgrees(texts[0], lower);
      EachAgrees(texts[1..], tokens[1..], lower);
      hide Lex, NoResult, NoResultOf, ReadClause, ClauseOf;
    }
  }

  /** The flat walk over a header's indices answers what the grammar answers
      for its tokens, refusals included. */
  lemma ParseReadsGrammar(header: Text, lower: Text -> Text)
    requires WithinBounds(header)
    ensures Parse(header, lower)
         == match HeaderTokens(Unfold(header), 0)
            case None => None
            case Some(tokens) => ResultsOf(tokens, lower)
  {
    var text := Unfold(header);
    hide Unfold, HeaderTokens, SplitClauses, ReadHead, HeadOf, ReadEach, EachOf, Summarize, HoldsTorn;
    SplitAgrees(text);
    if HeaderTokens(text, 0).Some? {
      NoTornClause(text, 0);
      var texts := SplitClauses(text).value;
      var tokens := WithoutBlank(Clauses(HeaderTokens(text, 0).value));
      assert !HoldsTorn(tokens[0]);
      HeadAgrees(texts, tokens);
      if ReadHead(texts).Some? {
        EachAgrees(ReadHead(texts).value.clauses, HeadOf(tokens).value.clauses, lower);
      }
    }
  }

  /** Headers of the same tokens read the same. */
  lemma SameTokensSameResults(a: Text, b: Text, lower: Text -> Text)
    requires WithinBounds(a) && WithinBounds(b)
    requires HeaderTokens(Unfold(a), 0) == HeaderTokens(Unfold(b), 0)
    ensures Parse(a, lower) == Parse(b, lower)
  {
    hide Parse, Unfold, HeaderTokens, ResultsOf;
    ParseReadsGrammar(a, lower);
    ParseReadsGrammar(b, lower);
  }
}

/** Headers as structures: what a server may write, the tokens it is written
    as, and the proofs that reading a written header gives its structure back
    and that no choice of whitespace or comments changes the result. */
module AuthRoundTrip {
  import opened Wrappers
  import opened AuthText
  import opened AuthResults
  import opened AuthGrammar
  import Sequences

  // ---------------------------------------------------------------------
  // The structure; a `bool` says whether a gap stands at a place the
  // grammar allows one.
  // ---------------------------------------------------------------------

  datatype Part = One(u: Unit) | Quoted(text: Text)

  datatype Property = Property(
    ptype: Text, g1: bool, property: Option<Text>, g2: bool, g3: bool, g4: bool, value: seq<Part>)

  datatype Method =
    | Reported(lead: bool, name: Text, g1: bool, version: Option<Text>, g2: bool, g3: bool, g4: bool,
        result: Text, properties: seq<Property>, tail: bool)
    | NoneReported(lead: bool, word: Text, tail: bool)

  datatype Server = Server(lead: bool, id: Text, quoted: bool, versioned: bool, tail: bool)

  /** `closing` is the empty piece a last semicolon opens. */
  datatype Header = Header(server: Option<Server>, methods: seq<Method>, closing: Option<bool>)

  predicate IsWord(w: Text) {
    w != [] && All(w, Keyword)
  }

  predicate IsPlain(u: Unit) {
    IsBare(u) && u != OPEN && u != CLOSE && u != SEMICOLON
  }

  predicate ValidPart(part: Part) {
    part.One? ==> IsPlain(part.u)
  }

  predicate ValidProperty(p: Property) {
    && IsWord(p.ptype) && (p.property.Some? ==> IsWord(p.property.value))
    && p.value != [] && forall i :: 0 <= i < |p.value| ==> ValidPart(p.value[i])
  }

  predicate ValidMethod(m: Method) {
    match m
    case Reported(_, name, _, version, _, _, _, result, properties, _) =>
      && IsWord(name) && IsWord(result)
      && (version.Some? ==> IsWord(version.value) && forall i :: 0 <= i < |version.value| ==> IsDigit(version.value[i]))
      && forall i :: 0 <= i < |properties| ==> ValidProperty(properties[i])
    case NoneReported(_, word, _) => IsWord(word) && Lower(word) == Ascii("none")
  }

  predicate ServerShape(s: Server) {
    !s.quoted ==> s.id != [] && forall i :: 0 <= i < |s.id| ==> IsPlain(s.id[i]) && s.id[i] != EQUALS
  }

  predicate ValidServer(s: Server) {
    ByteLength(s.id) <= SERVER_MAX_BYTES && !HoldsControl(s.id) && ServerShape(s)
  }

  predicate HeaderShape(h: Header) {
    && h.methods != []
    && (forall i :: 0 <= i < |h.methods| ==> ValidMethod(h.methods[i]))
    && (h.server.Some? ==> ServerShape(h.server.value))
    && (h.server.None? ==> h.methods[0].Reported?)
  }

  predicate ValidHeader(h: Header) {
    && HeaderShape(h)
    && |h.methods| <= MAX_CLAUSES
    && (h.server.Some? ==> ValidServer(h.server.value))
  }

  // ---------------------------------------------------------------------
  // What the structure says
  // ---------------------------------------------------------------------

  function NameText(p: Property): Text {
    match p.property
    case None => p.ptype
    case Some(property) => p.ptype + ['.' as int] + property
  }

  function ValueText(parts: seq<Part>): Text {
    if parts == [] then []
    else (match parts[0] case One(u) => [u] case Quoted(text) => text) + ValueText(parts[1..])
  }

  /** The value of the first property of a name, in any case. */
  function FirstValue(properties: seq<Property>, name: Text): Option<Text> {
    if properties == [] then None
    else if Lower(NameText(properties[0])) == name then Some(ValueText(properties[0].value))
    else FirstValue(properties[1..], name)
  }

  function DomainOf(properties: seq<Property>, lower: Text -> Text): Option<Text> {
    match FirstValue(properties, FROM)
    case None => None
    case Some(value) => Some(WithoutClosingDot(lower(value)))
  }

  function MeansOf(m: Method, lower: Text -> Text): Clause
    requires m.Reported?
  {
    var verdict := if m.version == None || m.version == Some(VERSION) then VerdictOf(m.result) else Unknown;
    Clause(Lower(m.name), verdict, DomainOf(m.properties, lower))
  }

  function Means(methods: seq<Method>, lower: Text -> Text): seq<Clause> {
    if methods == [] then []
    else if methods[0].NoneReported? then Means(methods[1..], lower)
    else [MeansOf(methods[0], lower)] + Means(methods[1..], lower)
  }

  function ServerText(h: Header): Option<Text> {
    match h.server
    case None => None
    case Some(server) => Some(server.id)
  }

  // What a reader is to be told, said of the structure in words of its own.

  /** The ASCII word, in any case. */
  predicate Word(w: Text, word: string) {
    && |w| == |word|
    && forall i :: 0 <= i < |w| ==>
         w[i] == word[i] as int || ('A' as int <= w[i] <= 'Z' as int && w[i] + 32 == word[i] as int)
  }

  predicate Named(m: Method, name: string) {
    m.Reported? && Word(m.name, name)
  }

  /** How a method came out: by its result word, where its version is the one
      read here or none is named. */
  predicate CameOut(m: Method, verdict: Verdict) {
    m.Reported?
    && var known := m.version == None || m.version == Some(['1' as int]);
       var passed, none := Word(m.result, "pass"), Word(m.result, "none");
       var failed := Word(m.result, "fail") || Word(m.result, "softfail") || Word(m.result, "hardfail");
       match verdict
       case Pass => known && passed
       case Fail => known && failed
       case Nothing => known && none
       case Unknown => !known || (!passed && !failed && !none)
  }

  ghost predicate Comes(methods: seq<Method>, name: string, verdict: Verdict) {
    exists i :: 0 <= i < |methods| && Named(methods[i], name) && CameOut(methods[i], verdict)
  }

  /** Of the methods of a name: a pass before a fail, a fail before what is not
      known, and nothing where none of these comes. */
  ghost predicate BestIs(methods: seq<Method>, name: string, best: Verdict) {
    match best
    case Pass => Comes(methods, name, Pass)
    case Fail => Comes(methods, name, Fail) && !Comes(methods, name, Pass)
    case Unknown => Comes(methods, name, Unknown) && !Comes(methods, name, Pass) && !Comes(methods, name, Fail)
    case Nothing => !Comes(methods, name, Pass) && !Comes(methods, name, Fail) && !Comes(methods, name, Unknown)
  }

  predicate FirstFrom(properties: seq<Property>, i: nat)
    requires i < |properties|
  {
    && Word(NameText(properties[i]), "header.from")
    && forall j :: 0 <= j < i ==> !Word(NameText(properties[j]), "header.from")
  }

  /** The domain of the first `header.from` in lower case, without a dot that
      closes it. */
  ghost predicate DomainIs(m: Method, lower: Text -> Text, from: Option<Text>)
    requires m.Reported?
  {
    && (from.None? ==> forall i :: 0 <= i < |m.properties| ==> !Word(NameText(m.properties[i]), "header.from"))
    && (from.Some? ==> exists i ::
          (0 <= i < |m.properties| && FirstFrom(m.properties, i)
           && Undotted(lower(ValueText(m.properties[i].value)), from.value)))
  }

  predicate Undotted(written: Text, domain: Text) {
    if written != [] && written[|written| - 1] == '.' as int then written == domain + ['.' as int]
    else written == domain
  }

  predicate TwoNamed(methods: seq<Method>, name: string) {
    exists i, j :: 0 <= i < j < |methods| && Named(methods[i], name) && Named(methods[j], name)
  }

  /** The outcome and the domain of the dmarc result, or nothing without one. */
  ghost predicate DmarcIs(methods: seq<Method>, lower: Text -> Text, dmarc: Verdict, from: Option<Text>) {
    && (forall i :: 0 <= i < |methods| && Named(methods[i], "dmarc") ==>
          CameOut(methods[i], dmarc) && DomainIs(methods[i], lower, from))
    && ((forall i :: 0 <= i < |methods| ==> !Named(methods[i], "dmarc")) ==> dmarc == Nothing && from == None)
  }

  /** What a header tells: nothing at all when it holds two dmarc results; else
      its server, the best that came of spf and of dkim, and the outcome and
      the domain of the dmarc result. */
  ghost predicate Told(answer: Option<Results>, h: Header, lower: Text -> Text) {
    if TwoNamed(h.methods, "dmarc") then answer == None
    else
      && answer.Some?
      && answer.value.server == (if h.server.Some? then Some(h.server.value.id) else None)
      && BestIs(h.methods, "spf", answer.value.spf)
      && BestIs(h.methods, "dkim", answer.value.dkim)
      && DmarcIs(h.methods, lower, answer.value.dmarc, answer.value.dmarcFrom)
  }

  /** A literal of lower-case letters and marks. */
  predicate IsLower(word: string) {
    forall i :: 0 <= i < |word| ==> word[i] < 128 as char && !('A' <= word[i] <= 'Z')
  }

  lemma WordIs(w: Text, word: string)
    requires IsLower(word)
    ensures Lower(w) == Ascii(word) <==> Word(w, word)
  {
    if Word(w, word) {
      forall i | 0 <= i < |w| ensures Lower(w)[i] == Ascii(word)[i] {
      }
    }
    if Lower(w) == Ascii(word) {
      assert |Lower(w)| == |w| && |Ascii(word)| == |word|;
      forall i | 0 <= i < |w|
        ensures w[i] == word[i] as int || ('A' as int <= w[i] <= 'Z' as int && w[i] + 32 == word[i] as int)
      {
        assert Lower(w)[i] == Ascii(word)[i];
      }
    }
  }

  lemma ResultWords()
    ensures IsLower("pass") && IsLower("fail") && IsLower("softfail") && IsLower("hardfail") && IsLower("none")
    ensures IsLower("spf") && IsLower("dkim") && IsLower("dmarc") && IsLower("header.from")
  {
  }

  lemma OutcomeIs(m: Method, lower: Text -> Text, verdict: Verdict)
    requires m.Reported?
    ensures MeansOf(m, lower).verdict == verdict <==> CameOut(m, verdict)
  {
    ResultWords();
    WordIs(m.result, "pass");
    WordIs(m.result, "fail");
    WordIs(m.result, "softfail");
    WordIs(m.result, "hardfail");
    WordIs(m.result, "none");
    OneWord(m.result);
    hide Lower, Word, Ascii, DomainOf;
  }

  /** No word is two of these. */
  lemma OneWord(w: Text)
    ensures !(Word(w, "pass") && Word(w, "fail")) && !(Word(w, "pass") && Word(w, "softfail"))
    ensures !(Word(w, "pass") && Word(w, "hardfail")) && !(Word(w, "pass") && Word(w, "none"))
    ensures !(Word(w, "fail") && Word(w, "none")) && !(Word(w, "softfail") && Word(w, "none"))
    ensures !(Word(w, "hardfail") && Word(w, "none"))
  {
    if |w| == 4 {
      assert "pass"[0] == 'p' && "fail"[0] == 'f' && "none"[0] == 'n';
    }
  }

  lemma {:induction false} FirstValueIs(properties: seq<Property>)
    ensures FirstValue(properties, FROM).None? <==>
      forall i :: 0 <= i < |properties| ==> !Word(NameText(properties[i]), "header.from")
    ensures FirstValue(properties, FROM).Some? ==> exists i ::
      (0 <= i < |properties| && FirstFrom(properties, i)
       && FirstValue(properties, FROM).value == ValueText(properties[i].value))
  {
    hide Word, NameText, ValueText, Lower;
    if properties != [] {
      var rest := properties[1..];
      ResultWords();
      WordIs(NameText(properties[0]), "header.from");
      FirstValueIs(rest);
      assert forall i :: 1 <= i < |properties| ==> properties[i] == rest[i - 1];
      assert forall i :: 0 <= i < |rest| ==> rest[i] == properties[i + 1];
      if Lower(NameText(properties[0])) == FROM {
        assert FirstFrom(properties, 0);
      } else if FirstValue(rest, FROM).Some? {
        var i :| 0 <= i < |rest| && FirstFrom(rest, i) && FirstValue(rest, FROM).value == ValueText(rest[i].value);
        assert FirstFrom(properties, i + 1);
      }
    }
  }

  lemma DomainTold(m: Method, lower: Text -> Text)
    requires m.Reported?
    ensures DomainIs(m, lower, DomainOf(m.properties, lower))
  {
    FirstValueIs(m.properties);
    var first := FirstValue(m.properties, FROM);
    if first.Some? {
      var i :| 0 <= i < |m.properties| && FirstFrom(m.properties, i)
        && first.value == ValueText(m.properties[i].value);
      UndottedIs(lower(ValueText(m.properties[i].value)));
    }
    hide FirstFrom, ValueText, FirstValue;
  }

  lemma UndottedIs(written: Text)
    ensures Undotted(written, WithoutClosingDot(written))
  {
  }

  function ReportsOf(methods: seq<Method>, name: string): (reports: seq<Method>)
    ensures forall i :: 0 <= i < |reports| ==> Named(reports[i], name) && reports[i] in methods
  {
    if methods == [] then []
    else (if Named(methods[0], name) then [methods[0]] else []) + ReportsOf(methods[1..], name)
  }

  lemma {:induction false} ReportsAll(methods: seq<Method>, name: string)
    ensures forall i :: 0 <= i < |methods| && Named(methods[i], name) ==> methods[i] in ReportsOf(methods, name)
    ensures ReportsOf(methods, name) == [] ==> forall i :: 0 <= i < |methods| ==> !Named(methods[i], name)
  {
    hide Named;
    if methods != [] {
      ReportsAll(methods[1..], name);
      assert forall i :: 1 <= i < |methods| ==> methods[i] == methods[1..][i - 1];
    }
  }

  lemma {:induction false} ReportsTwo(methods: seq<Method>, name: string)
    ensures |ReportsOf(methods, name)| > 1 <==> TwoNamed(methods, name)
  {
    hide Named;
    if methods != [] {
      var rest := methods[1..];
      ReportsTwo(rest, name);
      ReportsAll(rest, name);
      TwoFirst(methods, name);
      if ReportsOf(rest, name) != [] {
        var i :| 0 <= i < |rest| && rest[i] == ReportsOf(rest, name)[0];
        assert Named(rest[i], name);
      }
    }
  }

  lemma TwoFirst(methods: seq<Method>, name: string)
    requires methods != []
    ensures TwoNamed(methods, name) <==>
      TwoNamed(methods[1..], name)
      || (Named(methods[0], name) && exists i :: 0 <= i < |methods[1..]| && Named(methods[1..][i], name))
  {
    hide Named;
    var rest := methods[1..];
    if i, j :| 0 <= i < j < |methods| && Named(methods[i], name) && Named(methods[j], name) {
      assert rest[j - 1] == methods[j];
      if i > 0 { assert rest[i - 1] == methods[i]; }
    }
    if i, j :| 0 <= i < j < |rest| && Named(rest[i], name) && Named(rest[j], name) {
      assert methods[i + 1] == rest[i] && methods[j + 1] == rest[j];
    }
    if Named(methods[0], name) {
      if i :| 0 <= i < |rest| && Named(rest[i], name) {
        assert methods[i + 1] == rest[i];
      }
    }
  }

  /** Clauses that are what the methods mean, one for one. */
  ghost predicate Mean(clauses: seq<Clause>, methods: seq<Method>, lower: Text -> Text) {
    && |clauses| == |methods|
    && forall i :: 0 <= i < |methods| ==> methods[i].Reported? && clauses[i] == MeansOf(methods[i], lower)
  }

  lemma MeanFirst(m: Method, clauses: seq<Clause>, methods: seq<Method>, lower: Text -> Text)
    requires m.Reported? && Mean(clauses, methods, lower)
    ensures Mean([MeansOf(m, lower)] + clauses, [m] + methods, lower)
  {
    hide MeansOf;
  }

  lemma OfFirst(clause: Clause, clauses: seq<Clause>, name: Text)
    ensures Of([clause] + clauses, name) == (if clause.name == name then [clause] else []) + Of(clauses, name)
  {
    Sequences.Behind(clause, clauses);
  }

  lemma {:induction false} ReportsMean(methods: seq<Method>, lower: Text -> Text, name: string)
    requires IsLower(name)
    ensures Mean(Of(Means(methods, lower), Ascii(name)), ReportsOf(methods, name), lower)
  {
    hide Mean, Word, Ascii, Lower, DomainOf, VerdictOf, Of;
    if methods == [] {
      NoneMean(lower, name);
    } else {
      var m, rest := methods[0], methods[1..];
      ReportsMean(rest, lower, name);
      Sequences.Empty(ReportsOf(rest, name));
      Sequences.Empty(Of(Means(rest, lower), Ascii(name)));
      if m.Reported? {
        WordIs(m.name, name);
        OfFirst(MeansOf(m, lower), Means(rest, lower), Ascii(name));
        if Named(m, name) {
          MeanFirst(m, Of(Means(rest, lower), Ascii(name)), ReportsOf(rest, name), lower);
        }
      }
    }
  }

  lemma NoneMean(lower: Text -> Text, name: string)
    requires IsLower(name)
    ensures Mean(Of([], Ascii(name)), [], lower)
  {
  }

  lemma {:induction false} OccursAs(methods: seq<Method>, lower: Text -> Text, name: string, verdict: Verdict)
    requires IsLower(name)
    ensures Occurs(Means(methods, lower), Ascii(name), verdict) <==> Comes(methods, name, verdict)
  {
    hide Word, Ascii, Lower, DomainOf, VerdictOf, CameOut;
    if methods != [] {
      var rest, first := methods[1..], methods[0];
      OccursAs(rest, lower, name, verdict);
      assert forall i :: 1 <= i < |methods| ==> methods[i] == rest[i - 1];
      assert forall i :: 0 <= i < |rest| ==> rest[i] == methods[i + 1];
      if first.Reported? {
        WordIs(first.name, name);
        OutcomeIs(first, lower, verdict);
        OccursFirst(MeansOf(first, lower), Means(rest, lower), Ascii(name), verdict);
      }
    }
  }

  lemma OccursFirst(first: Clause, rest: seq<Clause>, name: Text, verdict: Verdict)
    ensures Occurs([first] + rest, name, verdict)
      <==> (first.name == name && first.verdict == verdict) || Occurs(rest, name, verdict)
  {
    var all := [first] + rest;
    assert all[0] == first && forall i :: 0 <= i < |rest| ==> all[i + 1] == rest[i];
  }

  lemma BestTold(methods: seq<Method>, lower: Text -> Text, name: string)
    requires IsLower(name)
    ensures BestIs(methods, name, Best(Means(methods, lower), Ascii(name)))
  {
    OccursAs(methods, lower, name, Pass);
    OccursAs(methods, lower, name, Fail);
    OccursAs(methods, lower, name, Unknown);
    OccursAs(methods, lower, name, Nothing);
    hide Occurs, Comes, Ascii;
  }

  lemma DmarcNone(methods: seq<Method>, lower: Text -> Text)
    requires ReportsOf(methods, "dmarc") == []
    ensures DmarcIs(methods, lower, Nothing, None)
  {
    ReportsAll(methods, "dmarc");
    hide ReportsOf, Named, CameOut, DomainIs;
  }

  lemma DmarcSole(methods: seq<Method>, lower: Text -> Text)
    requires |ReportsOf(methods, "dmarc")| == 1
    ensures var m := ReportsOf(methods, "dmarc")[0];
      m.Reported? && DmarcIs(methods, lower, MeansOf(m, lower).verdict, MeansOf(m, lower).from)
  {
    var m := ReportsOf(methods, "dmarc")[0];
    assert Named(m, "dmarc") && m.Reported? && m in methods;
    ReportsAll(methods, "dmarc");
    hide ReportsOf, Named, CameOut, DomainIs, MeansOf;
    DmarcOne(m, lower);
  }

  lemma DmarcTold(methods: seq<Method>, lower: Text -> Text)
    requires |ReportsOf(methods, "dmarc")| <= 1
    ensures var named := Of(Means(methods, lower), Ascii("dmarc"));
      && |named| <= 1
      && if named == [] then DmarcIs(methods, lower, Nothing, None)
         else DmarcIs(methods, lower, named[0].verdict, named[0].from)
  {
    hide ReportsOf, DmarcIs, Ascii, Means, Of, MeansOf;
    ResultWords();
    ReportsMean(methods, lower, "dmarc");
    if ReportsOf(methods, "dmarc") == [] {
      DmarcNone(methods, lower);
    } else {
      DmarcSole(methods, lower);
    }
  }

  lemma DmarcOne(m: Method, lower: Text -> Text)
    requires m.Reported?
    ensures CameOut(m, MeansOf(m, lower).verdict) && DomainIs(m, lower, MeansOf(m, lower).from)
  {
    OutcomeIs(m, lower, MeansOf(m, lower).verdict);
    DomainTold(m, lower);
    hide CameOut, DomainIs, DomainOf, VerdictOf, Lower;
  }

  /** The summary of what the methods mean is what the header tells. */
  lemma SummaryTells(h: Header, lower: Text -> Text)
    ensures Told(Summarize(ServerText(h), Means(h.methods, lower)), h, lower)
  {
    hide Best, BestIs, DmarcIs, ReportsOf, Named, TwoNamed, Means, Of;
    ResultWords();
    BestTold(h.methods, lower, "spf");
    BestTold(h.methods, lower, "dkim");
    ReportsTwo(h.methods, "dmarc");
    ReportsMean(h.methods, lower, "dmarc");
    if |ReportsOf(h.methods, "dmarc")| <= 1 {
      DmarcTold(h.methods, lower);
    }
  }

  // ---------------------------------------------------------------------
  // The structure as tokens
  // ---------------------------------------------------------------------

  function OptGap(gap: bool, rest: Tokens): Tokens {
    if gap then Gap(rest) else rest
  }

  function Marks(t: Text, rest: Tokens): Tokens {
    if t == [] then rest else Mark(t[0], Marks(t[1..], rest))
  }

  function ValueTokens(parts: seq<Part>, rest: Tokens): Tokens {
    if parts == [] then rest
    else
      match parts[0]
      case One(u) => Mark(u, ValueTokens(parts[1..], rest))
      case Quoted(text) => Str(Escape(text), ValueTokens(parts[1..], rest))
  }

  function AssignTokens(p: Property, rest: Tokens): Tokens {
    Mark(EQUALS, OptGap(p.g4, ValueTokens(p.value, rest)))
  }

  function PropertyTokens(p: Property, rest: Tokens): Tokens {
    Marks(p.ptype, OptGap(p.g1,
      match p.property
      case None => AssignTokens(p, rest)
      case Some(property) => Mark(DOT, OptGap(p.g2, Marks(property, OptGap(p.g3, AssignTokens(p, rest)))))))
  }

  function PropertiesTokens(properties: seq<Property>, tail: bool): Tokens {
    if properties == [] then OptGap(tail, End)
    else Gap(PropertyTokens(properties[0], PropertiesTokens(properties[1..], tail)))
  }

  function VersionTokens(m: Method, rest: Tokens): Tokens
    requires m.Reported?
  {
    match m.version
    case None => rest
    case Some(version) => Mark(SLASH, OptGap(m.g2, Marks(version, OptGap(m.g3, rest))))
  }

  function ResultTokens(m: Method): Tokens
    requires m.Reported?
  {
    Mark(EQUALS, OptGap(m.g4, Marks(m.result, PropertiesTokens(m.properties, m.tail))))
  }

  function MethodTokens(m: Method): Tokens {
    match m
    case Reported(lead, name, g1, _, _, _, _, _, _, _) =>
      OptGap(lead, Marks(name, OptGap(g1, VersionTokens(m, ResultTokens(m)))))
    case NoneReported(lead, word, tail) => OptGap(lead, Marks(word, OptGap(tail, End)))
  }

  function TailTokens(s: Server): Tokens {
    if s.versioned then Gap(Marks(VERSION, OptGap(s.tail, End))) else OptGap(s.tail, End)
  }

  function ServerTokens(s: Server): Tokens {
    OptGap(s.lead, if s.quoted then Str(Escape(s.id), TailTokens(s)) else Marks(s.id, TailTokens(s)))
  }

  function EachTokens(methods: seq<Method>): (each: seq<Tokens>)
    ensures |each| == |methods|
    ensures forall i :: 0 <= i < |each| ==> each[i] == MethodTokens(methods[i])
  {
    if methods == [] then [] else [MethodTokens(methods[0])] + EachTokens(methods[1..])
  }

  /** The pieces a reader keeps. */
  function KeptPieces(h: Header): seq<Tokens> {
    (if h.server.Some? then [ServerTokens(h.server.value)] else []) + EachTokens(h.methods)
  }

  function Pieces(h: Header): seq<Tokens> {
    KeptPieces(h) + if h.closing.Some? then [OptGap(h.closing.value, End)] else []
  }

  /** Tokens with others in place of their end. */
  function Ahead(ts: Tokens, after: Tokens): Tokens {
    match ts
    case End => after
    case Torn => Torn
    case Gap(rest) => Gap(Ahead(rest, after))
    case Str(body, rest) => Str(body, Ahead(rest, after))
    case Mark(u, rest) => Mark(u, Ahead(rest, after))
    case Semi(rest) => Semi(Ahead(rest, after))
  }

  function Joined(pieces: seq<Tokens>): Tokens
    requires pieces != []
  {
    if |pieces| == 1 then pieces[0] else Ahead(pieces[0], Semi(Joined(pieces[1..])))
  }

  function TokensOf(h: Header): Tokens
    requires h.methods != []
  {
    Joined(Pieces(h))
  }

  /** One piece: gaps merged, no semicolon, marks that read as themselves. */
  predicate OnePiece(ts: Tokens) {
    match ts
    case End => true
    case Gap(rest) => !rest.Gap? && OnePiece(rest)
    case Str(body, rest) => Quotable(body) && OnePiece(rest)
    case Mark(u, rest) => IsPlain(u) && OnePiece(rest)
    case _ => false
  }

  // ---------------------------------------------------------------------
  // Reading the tokens back
  // ---------------------------------------------------------------------

  predicate StartsKeyword(ts: Tokens) {
    ts.Mark? && IsKeyword(ts.u)
  }

  lemma {:induction false} RunOfMarks(w: Text, rest: Tokens, chars: Class)
    requires All(w, chars) && !(rest.Mark? && In(rest.u, chars))
    ensures Run(Marks(w, rest), chars) == Parsed(w, rest)
  {
    if w != [] {
      RunOfMarks(w[1..], rest, chars);
      Sequences.Cons(w);
    }
  }

  lemma WordBack(lead: bool, w: Text, rest: Tokens)
    requires IsWord(w) && !StartsKeyword(rest)
    ensures WordOf(OptGap(lead, Marks(w, rest))) == Some(Parsed(w, SkipGap(rest)))
  {
    RunOfMarks(w, rest, Keyword);
  }

  lemma {:induction false} UnitsBack(parts: seq<Part>, rest: Tokens)
    requires rest.Gap? || rest.End?
    ensures UnitsOf(ValueTokens(parts, rest)) == Some(Parsed(ValueText(parts), rest))
  {
    if parts != [] {
      UnitsBack(parts[1..], rest);
      if parts[0].Quoted? {
        UnescapeEscape(parts[0].text);
      }
    }
  }

  lemma PropertyBack(p: Property, rest: Tokens)
    requires ValidProperty(p) && (rest.Gap? || rest.End?)
    ensures NameOf(PropertyTokens(p, rest)) == Some(Parsed(NameText(p), AssignTokens(p, rest)))
    ensures ValueOf(SkipGap(AssignTokens(p, rest).rest)) == Some(Parsed(ValueText(p.value), rest))
  {
    UnitsBack(p.value, rest);
    assert ValueTokens(p.value, rest).Mark? || ValueTokens(p.value, rest).Str?;
    var assign := AssignTokens(p, rest);
    match p.property {
      case None => WordBack(false, p.ptype, OptGap(p.g1, assign));
      case Some(property) =>
        WordBack(false, p.ptype, OptGap(p.g1, Mark(DOT, OptGap(p.g2, Marks(property, OptGap(p.g3, assign))))));
        WordBack(p.g2, property, OptGap(p.g3, assign));
    }
  }

  /** The properties kept on the way, the first value of each name. */
  function Kept(properties: seq<Property>, held: map<Text, Text>): map<Text, Text> {
    if properties == [] then held
    else Kept(properties[1..], WithProperty(held, NameText(properties[0]), ValueText(properties[0].value)))
  }

  lemma {:induction false} KeptFirst(properties: seq<Property>, held: map<Text, Text>, name: Text)
    ensures name in Kept(properties, held) <==> name in held || FirstValue(properties, name).Some?
    ensures name in held ==> Kept(properties, held)[name] == held[name]
    ensures name !in held && FirstValue(properties, name).Some? ==>
      Kept(properties, held)[name] == FirstValue(properties, name).value
  {
    if properties != [] {
      KeptFirst(properties[1..], WithProperty(held, NameText(properties[0]), ValueText(properties[0].value)), name);
    }
  }

  lemma {:induction false} PropertiesBack(properties: seq<Property>, tail: bool, held: map<Text, Text>)
    requires forall i :: 0 <= i < |properties| ==> ValidProperty(properties[i])
    ensures PropertiesOf(SkipGap(PropertiesTokens(properties, tail)), held) == Some(Kept(properties, held))
  {
    if properties != [] {
      var p, rest := properties[0], PropertiesTokens(properties[1..], tail);
      PropertyBack(p, rest);
      PropertiesBack(properties[1..], tail, WithProperty(held, NameText(p), ValueText(p.value)));
      assert p.ptype != [] && PropertyTokens(p, rest).Mark?;
      hide NameOf, ValueOf, PropertyTokens, NameText, ValueText, WithProperty;
    }
  }

  lemma VersionBack(m: Method, rest: Tokens)
    requires m.Reported? && ValidMethod(m) && Opens(rest, EQUALS)
    ensures VersionOf(VersionTokens(m, rest))
         == Some(Parsed(m.version == None || m.version == Some(VERSION), rest))
    ensures !StartsKeyword(VersionTokens(m, rest)) && !VersionTokens(m, rest).Gap?
  {
    if m.version.Some? {
      WordBack(m.g2, m.version.value, OptGap(m.g3, rest));
    }
  }

  lemma SpecBack(m: Method)
    requires m.Reported? && ValidMethod(m)
    ensures SpecOf(MethodTokens(m))
         == Some(Parsed(
              Spec(Lower(m.name),
                if m.version == None || m.version == Some(VERSION) then VerdictOf(m.result) else Unknown),
              SkipGap(PropertiesTokens(m.properties, m.tail))))
  {
    hide VerdictOf, Lower, WordOf, VersionOf, VersionTokens;
    var properties := PropertiesTokens(m.properties, m.tail);
    assert properties.Gap? || properties.End?;
    VersionBack(m, ResultTokens(m));
    WordBack(m.lead, m.name, OptGap(m.g1, VersionTokens(m, ResultTokens(m))));
    WordBack(m.g4, m.result, properties);
  }

  lemma MethodBack(m: Method, lower: Text -> Text)
    requires m.Reported? && ValidMethod(m)
    ensures ClauseOf(MethodTokens(m), lower) == Some(MeansOf(m, lower))
    ensures !NoResultOf(MethodTokens(m))
  {
    SpecBack(m);
    PropertiesBack(m.properties, m.tail, map[]);
    KeptFirst(m.properties, map[], FROM);
    VersionBack(m, ResultTokens(m));
    RunOfMarks(m.name, OptGap(m.g1, VersionTokens(m, ResultTokens(m))), Keyword);
    hide SpecOf, PropertiesOf, Lower, VerdictOf, WithoutClosingDot, FirstValue, Kept, VersionOf, VersionTokens;
  }

  lemma NoneBack(m: Method)
    requires m.NoneReported? && ValidMethod(m)
    ensures NoResultOf(MethodTokens(m))
  {
    RunOfMarks(m.word, OptGap(m.tail, End), Keyword);
  }

  lemma {:induction false} MethodsBack(methods: seq<Method>, lower: Text -> Text)
    requires forall i :: 0 <= i < |methods| ==> ValidMethod(methods[i])
    ensures EachOf(EachTokens(methods), lower) == Some(Means(methods, lower))
  {
    if methods != [] {
      MethodsBack(methods[1..], lower);
      Sequences.Parts([MethodTokens(methods[0])], EachTokens(methods[1..]));
      if methods[0].Reported? {
        MethodBack(methods[0], lower);
      } else {
        NoneBack(methods[0]);
      }
      hide ClauseOf, NoResultOf, MethodTokens, MeansOf;
    }
  }

  lemma ServerBack(s: Server)
    requires ValidServer(s)
    ensures ServerOf(ServerTokens(s)) == Some(s.id)
    ensures SkipGap(ServerTokens(s)).Str? <==> s.quoted
  {
    if s.versioned {
      WordBack(true, VERSION, OptGap(s.tail, End));
    }
    assert FitsOf(TailTokens(s));
    if s.quoted {
      UnescapeEscape(s.id);
    } else {
      RunOfMarks(s.id, TailTokens(s), Bare);
    }
    hide FitsOf, WordOf, HoldsControl, ByteLength;
  }

  lemma {:induction false} MarksHold(t: Text, rest: Tokens, u: Unit)
    ensures Holds(Marks(t, rest), u) <==> u in t || Holds(rest, u)
  {
    if t != [] {
      MarksHold(t[1..], rest, u);
    }
  }

  /** A first piece that names a server reads as one, whatever it names. */
  lemma ServerOpens(s: Server)
    requires ServerShape(s)
    ensures SkipGap(ServerTokens(s)).Str? || !Holds(ServerTokens(s), EQUALS)
  {
    MarksHold(s.id, TailTokens(s), EQUALS);
    assert !Holds(TailTokens(s), EQUALS) by {
      MarksHold(VERSION, OptGap(s.tail, End), EQUALS);
    }
    hide TailTokens;
  }

  lemma HeadBack(h: Header)
    requires HeaderShape(h) && (h.server.Some? ==> ValidServer(h.server.value))
    ensures HeadOf(KeptPieces(h)) == Some(HeadTokens(ServerText(h), EachTokens(h.methods)))
  {
    if h.server.Some? {
      var s := h.server.value;
      ServerBack(s);
      ServerOpens(s);
      Sequences.Parts([ServerTokens(s)], EachTokens(h.methods));
      hide ServerOf, ServerTokens;
    } else {
      Sequences.Empty(EachTokens(h.methods));
      ReportedHolds(h.methods[0]);
    }
  }

  lemma ReportedHolds(m: Method)
    requires m.Reported? && ValidMethod(m)
    ensures Holds(MethodTokens(m), EQUALS) && SkipGap(MethodTokens(m)).Mark?
  {
    var result := ResultTokens(m);
    var version := VersionTokens(m, result);
    assert Holds(version, EQUALS) by {
      if m.version.Some? {
        MarksHold(m.version.value, OptGap(m.g3, result), EQUALS);
        assert Holds(OptGap(m.g3, result), EQUALS);
      }
    }
    MarksHold(m.name, OptGap(m.g1, version), EQUALS);
    assert Holds(OptGap(m.g1, version), EQUALS);
  }

  // ---------------------------------------------------------------------
  // Pieces apart
  // ---------------------------------------------------------------------

  lemma {:induction false} PieceApart(ts: Tokens, rest: Tokens)
    requires OnePiece(ts)
    ensures Clauses(ts) == [ts]
    ensures Clauses(Ahead(ts, Semi(rest))) == [ts] + Clauses(rest)
  {
    match ts {
      case End =>
      case Gap(after) => PieceApart(after, rest); TailOfPiece(after, rest);
      case Str(_, after) => PieceApart(after, rest); TailOfPiece(after, rest);
      case Mark(_, after) => PieceApart(after, rest); TailOfPiece(after, rest);
    }
  }

  lemma TailOfPiece(ts: Tokens, rest: Tokens)
    ensures ([ts] + Clauses(rest))[0] == ts && ([ts] + Clauses(rest))[1..] == Clauses(rest)
  {
  }

  lemma {:induction false} PiecesApart(pieces: seq<Tokens>)
    requires pieces != [] && OnePieces(pieces)
    ensures Clauses(Joined(pieces)) == pieces
  {
    if |pieces| == 1 {
      PieceApart(pieces[0], End);
    } else {
      PiecesApart(pieces[1..]);
      PieceApart(pieces[0], Joined(pieces[1..]));
      Sequences.Cons(pieces);
    }
  }

  lemma {:induction false} MarksOnePiece(t: Text, rest: Tokens)
    requires forall i :: 0 <= i < |t| ==> IsPlain(t[i])
    ensures OnePiece(Marks(t, rest)) <==> OnePiece(rest)
    ensures t != [] ==> !Marks(t, rest).Gap?
  {
    if t != [] {
      MarksOnePiece(t[1..], rest);
    }
  }

  lemma {:induction false} ValueOnePiece(parts: seq<Part>, rest: Tokens)
    requires forall i :: 0 <= i < |parts| ==> ValidPart(parts[i])
    ensures OnePiece(ValueTokens(parts, rest)) <==> OnePiece(rest)
    ensures parts != [] ==> !ValueTokens(parts, rest).Gap?
  {
    if parts != [] {
      ValueOnePiece(parts[1..], rest);
      if parts[0].Quoted? {
        EscapeQuotable(parts[0].text);
      }
    }
  }

  lemma GapOnePiece(gap: bool, rest: Tokens)
    requires OnePiece(rest) && !rest.Gap?
    ensures OnePiece(OptGap(gap, rest))
  {
  }

  lemma PropertyOnePiece(p: Property, rest: Tokens)
    requires ValidProperty(p) && OnePiece(rest)
    ensures OnePiece(PropertyTokens(p, rest)) && !PropertyTokens(p, rest).Gap?
  {
    ValueOnePiece(p.value, rest);
    GapOnePiece(p.g4, ValueTokens(p.value, rest));
    var assign := AssignTokens(p, rest);
    assert OnePiece(assign);
    var named := assign;
    if p.property.Some? {
      GapOnePiece(p.g3, assign);
      MarksOnePiece(p.property.value, OptGap(p.g3, assign));
      GapOnePiece(p.g2, Marks(p.property.value, OptGap(p.g3, assign)));
      named := Mark(DOT, OptGap(p.g2, Marks(p.property.value, OptGap(p.g3, assign))));
      assert OnePiece(named);
    }
    GapOnePiece(p.g1, named);
    MarksOnePiece(p.ptype, OptGap(p.g1, named));
  }

  lemma {:induction false} PropertiesOnePiece(properties: seq<Property>, tail: bool)
    requires forall i :: 0 <= i < |properties| ==> ValidProperty(properties[i])
    ensures OnePiece(PropertiesTokens(properties, tail))
  {
    if properties != [] {
      PropertiesOnePiece(properties[1..], tail);
      PropertyOnePiece(properties[0], PropertiesTokens(properties[1..], tail));
      hide PropertyTokens;
    }
  }

  lemma MethodOnePiece(m: Method)
    requires ValidMethod(m)
    ensures OnePiece(MethodTokens(m)) && !BlankOf(MethodTokens(m))
  {
    match m {
      case Reported(lead, name, g1, version, g2, g3, g4, word, properties, tail) =>
        PropertiesOnePiece(properties, tail);
        MarksOnePiece(word, PropertiesTokens(properties, tail));
        GapOnePiece(g4, Marks(word, PropertiesTokens(properties, tail)));
        var result := ResultTokens(m);
        assert OnePiece(result);
        var versioned := VersionTokens(m, result);
        if version.Some? {
          GapOnePiece(g3, result);
          MarksOnePiece(version.value, OptGap(g3, result));
          GapOnePiece(g2, Marks(version.value, OptGap(g3, result)));
          assert OnePiece(versioned);
        }
        GapOnePiece(g1, versioned);
        MarksOnePiece(name, OptGap(g1, versioned));
        GapOnePiece(lead, Marks(name, OptGap(g1, versioned)));
      case NoneReported(lead, word, tail) =>
        GapOnePiece(tail, End);
        MarksOnePiece(word, OptGap(tail, End));
        GapOnePiece(lead, Marks(word, OptGap(tail, End)));
    }
  }

  lemma ServerOnePiece(s: Server)
    requires ServerShape(s)
    ensures OnePiece(ServerTokens(s))
  {
    MarksOnePiece(VERSION, OptGap(s.tail, End));
    if s.quoted {
      EscapeQuotable(s.id);
    } else {
      MarksOnePiece(s.id, TailTokens(s));
    }
  }

  predicate OnePieces(pieces: seq<Tokens>) {
    forall i :: 0 <= i < |pieces| ==> OnePiece(pieces[i])
  }

  lemma OnePiecesThen(a: seq<Tokens>, b: seq<Tokens>)
    requires OnePieces(a) && OnePieces(b)
    ensures OnePieces(a + b)
  {
  }

  lemma MethodPieces(methods: seq<Method>)
    requires methods != [] && forall i :: 0 <= i < |methods| ==> ValidMethod(methods[i])
    ensures OnePieces(EachTokens(methods)) && !BlankOf(EachTokens(methods)[|methods| - 1])
  {
    forall i | 0 <= i < |methods|
      ensures OnePiece(MethodTokens(methods[i])) && !BlankOf(MethodTokens(methods[i]))
    {
      MethodOnePiece(methods[i]);
    }
    hide MethodTokens, OnePiece, BlankOf;
  }

  lemma HeaderPieces(h: Header)
    requires HeaderShape(h)
    ensures OnePieces(Pieces(h)) && WithoutBlank(Pieces(h)) == KeptPieces(h)
  {
    MethodPieces(h.methods);
    if h.server.Some? {
      ServerOnePiece(h.server.value);
    }
    var server := if h.server.Some? then [ServerTokens(h.server.value)] else [];
    var closing := if h.closing.Some? then [OptGap(h.closing.value, End)] else [];
    assert OnePieces(server) && OnePieces(closing);
    hide MethodTokens, ServerTokens, OnePiece, OnePieces, BlankOf, ValidMethod, ServerShape, EachTokens;
    OnePiecesThen(server, EachTokens(h.methods));
    OnePiecesThen(server + EachTokens(h.methods), closing);
    KeptOrClosed(server, EachTokens(h.methods), h.closing);
  }

  lemma KeptOrClosed(server: seq<Tokens>, methods: seq<Tokens>, closing: Option<bool>)
    requires methods != [] && !BlankOf(methods[|methods| - 1])
    ensures WithoutBlank(server + methods + if closing.Some? then [OptGap(closing.value, End)] else [])
         == server + methods
  {
    var kept := server + methods;
    assert kept[|kept| - 1] == methods[|methods| - 1];
    if closing.Some? {
      Sequences.Parts(kept, [OptGap(closing.value, End)]);
    } else {
      Sequences.Empty(kept);
    }
  }

  // ---------------------------------------------------------------------
  // The round trip
  // ---------------------------------------------------------------------

  /** A header whose tokens are those of a structure, whatever whitespace and
      comments its gaps hold, reads as what the structure says; two dmarc
      clauses refuse it. */
  lemma WrittenHeaderReadsBack(header: Text, h: Header, lower: Text -> Text)
    requires WithinBounds(header) && ValidHeader(h)
    requires HeaderTokens(Unfold(header), 0) == Some(TokensOf(h))
    ensures Parse(header, lower) == Summarize(ServerText(h), Means(h.methods, lower))
    ensures Told(Parse(header, lower), h, lower)
  {
    hide Told;
    SummaryTells(h, lower);
    hide Parse, Unfold, HeaderTokens, Summarize, Pieces, KeptPieces, ServerText, Means, EachOf, HeadOf;
    ParseReadsGrammar(header, lower);
    HeaderPieces(h);
    PiecesApart(Pieces(h));
    HeadBack(h);
    MethodsBack(h.methods, lower);
  }

  /** A header of more results than a server reports is refused, whatever they
      are. */
  lemma TooManyRefused(header: Text, h: Header, lower: Text -> Text)
    requires HeaderShape(h) && (h.server.Some? ==> ValidServer(h.server.value)) && |h.methods| > 32
    requires HeaderTokens(Unfold(header), 0) == Some(TokensOf(h))
    ensures Parse(header, lower) == None
  {
    hide Unfold, HeaderTokens, Summarize, Pieces, KeptPieces, EachOf, HeadOf, ReadClauses, ReadHead, SplitClauses;
    if WithinBounds(header) {
      hide Parse;
      ParseReadsGrammar(header, lower);
      HeaderPieces(h);
      PiecesApart(Pieces(h));
      HeadBack(h);
    }
  }

  /** So is one longer than 8192 octets of UTF-8, or than as many code units. */
  lemma TooLongRefused(header: Text, lower: Text -> Text)
    requires |header| > 8192 || ByteLength(header) > 8192
    ensures Parse(header, lower) == None
  {
    LengthWithinBytes(header);
    hide SplitClauses;
  }

  lemma ServerNone(s: Server)
    requires ServerShape(s)
    requires ByteLength(s.id) > 255 || exists i :: 0 <= i < |s.id| && (s.id[i] < 0x20 || 0x7F <= s.id[i] < 0xA0)
    ensures ServerOf(ServerTokens(s)) == None
  {
    if s.quoted {
      UnescapeEscape(s.id);
    } else {
      RunOfMarks(s.id, TailTokens(s), Bare);
    }
    hide FitsOf, WordOf, ByteLength;
  }

  /** And one whose server is named by more than 255 octets or by a control
      character, quoted or not. */
  lemma ServerRefused(header: Text, h: Header, lower: Text -> Text)
    requires HeaderShape(h) && h.server.Some?
    requires var id := h.server.value.id;
      ByteLength(id) > 255 || exists i :: 0 <= i < |id| && (id[i] < 0x20 || 0x7F <= id[i] < 0xA0)
    requires HeaderTokens(Unfold(header), 0) == Some(TokensOf(h))
    ensures Parse(header, lower) == None
  {
    var s := h.server.value;
    hide Unfold, HeaderTokens, Summarize, Pieces, EachOf, ReadClauses, ReadHead, SplitClauses, ByteLength;
    if WithinBounds(header) {
      hide Parse;
      ServerNone(s);
      ServerOpens(s);
      hide ServerOf, ServerTokens;
      ParseReadsGrammar(header, lower);
      HeaderPieces(h);
      PiecesApart(Pieces(h));
      Sequences.Parts([ServerTokens(s)], EachTokens(h.methods));
      assert HeadOf(KeptPieces(h)) == None;
    }
  }

  /** The tokens written with one space for each gap. */
  function Print(ts: Tokens): Text {
    match ts
    case End | Torn => []
    case Gap(rest) => [SPACE] + Print(rest)
    case Str(body, rest) => [QUOTE] + (body + ([QUOTE] + Print(rest)))
    case Mark(u, rest) => [u] + Print(rest)
    case Semi(rest) => [SEMICOLON] + Print(rest)
  }

  predicate Printable(ts: Tokens) {
    match ts
    case End => true
    case Torn => false
    case Gap(rest) => !rest.Gap? && Printable(rest)
    case Str(body, rest) => Quotable(body) && Printable(rest)
    case Mark(u, rest) => IsPlain(u) && Printable(rest)
    case Semi(rest) => Printable(rest)
  }

  lemma OneAhead(text: Text, at: nat, rest: Tokens)
    requires at < |text| && text[at] != OPEN && text[at] != CLOSE && text[at] != QUOTE
    requires HeaderTokens(text, at + 1) == Some(rest)
    ensures HeaderTokens(text, at) == Some(
      if IsSpace(text[at]) then Gapped(rest) else if text[at] == SEMICOLON then Semi(rest) else Mark(text[at], rest))
  {
  }

  lemma QuotedAhead(text: Text, at: nat, end: nat, rest: Tokens)
    requires At(text, at, QUOTE) && QuotedEnd(text, at) == Some(end)
    requires end <= |text| && HeaderTokens(text, end) == Some(rest)
    ensures HeaderTokens(text, at) == Some(Str(text[at + 1..end - 1], rest))
  {
    hide QuotedEnd;
  }

  lemma NoneAhead(text: Text)
    ensures HeaderTokens(text, |text|) == Some(End)
  {
  }

  lemma {:induction false} PrintedTokens(text: Text, at: nat, ts: Tokens)
    requires Printable(ts) && Sequences.From(text, at, Print(ts))
    ensures at <= |text| && HeaderTokens(text, at) == Some(ts)
    decreases ts, 0
  {
    hide Sequences.From, HeaderTokens, QuotedEnd, Quotable, IsPlain;
    match ts {
      case End =>
        Sequences.FromLength(text, at, []);
        NoneAhead(text);
      case Gap(rest) => PrintedOne(text, at, SPACE, rest);
      case Semi(rest) => PrintedOne(text, at, SEMICOLON, rest);
      case Mark(u, rest) =>
        PlainMarks(u);
        PrintedOne(text, at, u, rest);
      case Str(body, rest) =>
        PrintedQuoted(text, at, body, Print(rest));
        PrintedTokens(text, at + |body| + 2, rest);
        QuotedAhead(text, at, at + |body| + 2, rest);
    }
  }

  lemma PlainMarks(u: Unit)
    requires IsPlain(u)
    ensures u != OPEN && u != CLOSE && u != QUOTE && u != SEMICOLON && !IsSpace(u)
  {
  }

  lemma {:induction false} PrintedOne(text: Text, at: nat, u: Unit, rest: Tokens)
    requires u != OPEN && u != CLOSE && u != QUOTE
    requires Printable(rest) && Sequences.From(text, at, [u] + Print(rest))
    ensures at < |text| && HeaderTokens(text, at) == Some(
      if IsSpace(u) then Gapped(rest) else if u == SEMICOLON then Semi(rest) else Mark(u, rest))
    decreases rest, 1
  {
    hide Sequences.From, HeaderTokens, IsSpace;
    Sequences.After(text, at, u, Print(rest));
    PrintedTokens(text, at + 1, rest);
    OneAhead(text, at, rest);
  }

  lemma PrintedQuoted(text: Text, at: nat, body: Text, rest: Text)
    requires Quotable(body) && Sequences.From(text, at, [QUOTE] + (body + ([QUOTE] + rest)))
    ensures At(text, at, QUOTE) && QuotedEnd(text, at) == Some(at + |body| + 2)
    ensures at + |body| + 2 <= |text| && text[at + 1..at + |body| + 1] == body
    ensures Sequences.From(text, at + |body| + 2, rest)
  {
    hide Sequences.From, QuotedRest, Quotable;
    Sequences.After(text, at, QUOTE, body + ([QUOTE] + rest));
    Sequences.AfterAll(text, at + 1, body, [QUOTE] + rest);
    Sequences.After(text, at + 1 + |body|, QUOTE, rest);
    QuotedBody(text, at + 1, body);
  }

  lemma {:induction false} AheadPrintable(ts: Tokens, after: Tokens)
    requires OnePiece(ts) && Printable(after) && !after.Gap?
    ensures Printable(ts) && Printable(Ahead(ts, after))
    ensures Ahead(ts, after).Gap? ==> ts.Gap?
  {
    match ts {
      case End =>
      case Gap(rest) => AheadPrintable(rest, after);
      case Str(_, rest) => AheadPrintable(rest, after);
      case Mark(_, rest) => AheadPrintable(rest, after);
    }
  }

  lemma {:induction false} JoinedPrintable(pieces: seq<Tokens>)
    requires pieces != [] && OnePieces(pieces)
    ensures Printable(Joined(pieces))
  {
    if |pieces| == 1 {
      AheadPrintable(pieces[0], End);
    } else {
      JoinedPrintable(pieces[1..]);
      AheadPrintable(pieces[0], Semi(Joined(pieces[1..])));
    }
  }

  // ---------------------------------------------------------------------
  // Folds inside quoted values
  // ---------------------------------------------------------------------

  predicate OpensBlank(t: Text) {
    t != [] && (t[0] == SPACE || t[0] == TAB)
  }

  /** Behind `a` the text `b` unfolds as it does alone; a line break that ends
      `a` is cut where `b` folds it. */
  lemma {:induction false} UnfoldSeam(a: Text, b: Text) returns (head: Text, cut: Text)
    ensures Unfold(a) == head + cut && Unfold(a + b) == head + Unfold(b)
    ensures cut == [] || cut == [CR] || cut == [LF] || cut == [CR, LF]
    ensures cut != [] ==> OpensBlank(Unfold(b))
    decreases |a|
  {
    if a == [] {
      Sequences.Empty(b);
      Sequences.Empty(Unfold(b));
      head, cut := [], [];
    } else if |a| == 1 {
      assert a == [a[0]];
      hide Unfold;
      UnfoldOne(a[0]);
      head, cut := UnfoldBreak(a[0], b);
    } else if a == [CR, LF] && OpensBlank(b) {
      UnfoldBreaks(b);
      hide Unfold;
      Sequences.Empty(Unfold(b));
      Sequences.Empty(a);
      head, cut := [], a;
    } else {
      hide Unfold;
      head, cut := UnfoldSeamFirst(a, b);
    }
  }

  lemma UnfoldBreaks(b: Text)
    requires OpensBlank(b)
    ensures Unfold([CR, LF]) == [CR, LF] && Unfold([CR, LF] + b) == Unfold(b) && OpensBlank(Unfold(b))
  {
    var all := [CR, LF] + b;
    UnfoldStep(all);
    UnfoldStep(b);
    UnfoldStep([CR, LF]);
    hide Unfold;
    Sequences.Parts([CR, LF], b);
    assert all[1..][0] == LF && all[1..][1] == b[0] && |all[1..]| > 1;
    assert [CR, LF][1..] == [LF];
    UnfoldOne(LF);
  }

  lemma UnfoldStep(t: Text)
    requires t != []
    ensures Unfold(t)
         == if Folds(t) then Unfold(t[1..])
            else if t[0] == CR && Folds(t[1..]) then Unfold(t[2..])
            else [t[0]] + Unfold(t[1..])
  {
  }

  /** One unit ahead of the text. */
  lemma UnfoldBreak(u: Unit, b: Text) returns (head: Text, cut: Text)
    ensures [u] == head + cut && Unfold([u] + b) == head + Unfold(b)
    ensures cut == [] || cut == [CR] || cut == [LF]
    ensures cut != [] ==> OpensBlank(Unfold(b))
  {
    Sequences.Behind(u, b);
    if Folds([u] + b) || (u == CR && Folds(b)) {
      assert ([u] + b)[2..] == b[1..];
      head, cut := [], [u];
    } else {
      head, cut := [u], [];
    }
  }

  lemma {:induction false} UnfoldSeamFirst(a: Text, b: Text) returns (head: Text, cut: Text)
    requires |a| > 1 && !(a == [CR, LF] && OpensBlank(b))
    ensures Unfold(a) == head + cut && Unfold(a + b) == head + Unfold(b)
    ensures cut == [] || cut == [CR] || cut == [LF] || cut == [CR, LF]
    ensures cut != [] ==> OpensBlank(Unfold(b))
    decreases |a|, 0
  {
    Sequences.Tail(a, b);
    Sequences.Tail(a[1..], b);
    assert Folds(a + b) <==> Folds(a);
    if a[0] == CR { assert Folds((a + b)[1..]) <==> Folds(a[1..]); }
    if !Folds(a) && a[0] == CR && Folds(a[1..]) {
      Sequences.Slice(a + b, 1, 1);
      Sequences.Slice(a, 1, 1);
      head, cut := UnfoldSeam(a[2..], b);
    } else {
      head, cut := UnfoldSeam(a[1..], b);
      if !Folds(a) {
        Sequences.Assoc([a[0]], head, cut);
        Sequences.Assoc([a[0]], head, Unfold(b));
        head := [a[0]] + head;
      }
    }
  }

  /** A unit that is no whitespace ends every fold ahead of it. */
  lemma UnfoldAhead(a: Text, b: Text)
    requires b != [] && !IsSpace(b[0])
    ensures Unfold(a + b) == Unfold(a) + Unfold(b)
  {
    var head, cut := UnfoldSeam(a, b);
    Sequences.Empty(head);
  }

  lemma UnfoldOne(u: Unit)
    ensures Unfold([u]) == [u]
  {
    assert [u][1..] == [];
  }

  lemma UnfoldFirst(u: Unit, rest: Text)
    requires u != CR && u != LF
    ensures Unfold([u] + rest) == [u] + Unfold(rest)
  {
    Sequences.Behind(u, rest);
  }

  /** Tokens whose quoted strings lost their folds. */
  function Unfolding(ts: Tokens): Tokens {
    match ts
    case End => End
    case Torn => Torn
    case Gap(rest) => Gap(Unfolding(rest))
    case Str(body, rest) => Str(Unfold(body), Unfolding(rest))
    case Mark(u, rest) => Mark(u, Unfolding(rest))
    case Semi(rest) => Semi(Unfolding(rest))
  }

  /** A printed header folds in its quoted strings and nowhere else. */
  lemma {:induction false} UnfoldPrint(ts: Tokens)
    requires Printable(ts)
    ensures Unfold(Print(ts)) == Print(Unfolding(ts))
  {
    match ts {
      case End =>
      case Gap(rest) =>
        UnfoldFirst(SPACE, Print(rest));
        UnfoldPrint(rest);
      case Str(body, rest) =>
        UnfoldFirst(QUOTE, body + ([QUOTE] + Print(rest)));
        UnfoldAhead(body, [QUOTE] + Print(rest));
        UnfoldFirst(QUOTE, Print(rest));
        UnfoldPrint(rest);
      case Mark(u, rest) =>
        UnfoldFirst(u, Print(rest));
        UnfoldPrint(rest);
      case Semi(rest) =>
        UnfoldFirst(SEMICOLON, Print(rest));
        UnfoldPrint(rest);
    }
  }

  lemma EscapeHead(t: Text)
    requires t != []
    ensures Escape(t) != []
    ensures if t[0] == BACKSLASH || t[0] == QUOTE then Escape(t)[0] == BACKSLASH
      else Escape(t)[0] == t[0] && Escape(t)[1..] == Escape(t[1..])
  {
  }

  lemma EscapeFolds(t: Text)
    ensures Folds(Escape(t)) <==> Folds(t)
  {
    if t != [] {
      EscapeHead(t);
      if |t| > 1 {
        EscapeHead(t[1..]);
      }
    }
  }

  /** Escaping and unfolding do not meet: a pair opens with no line break. */
  lemma {:induction false} UnfoldEscape(t: Text)
    ensures Unfold(Escape(t)) == Escape(Unfold(t))
    decreases |t|
  {
    if t != [] {
      EscapeHead(t);
      EscapeFolds(t);
      if t[0] == BACKSLASH || t[0] == QUOTE {
        UnfoldEscape(t[1..]);
        Two(BACKSLASH, t[0], Escape(t[1..]));
        UnfoldFirst(BACKSLASH, [t[0]] + Escape(t[1..]));
        UnfoldFirst(t[0], Escape(t[1..]));
        Two(BACKSLASH, t[0], Escape(Unfold(t[1..])));
        Sequences.Behind(t[0], Unfold(t[1..]));
      } else {
        EscapeFolds(t[1..]);
        if t[0] == CR && Folds(t[1..]) {
          EscapeHead(t[1..]);
          assert Escape(t)[2..] == Escape(t[1..])[1..] && t[2..] == t[1..][1..];
          UnfoldEscape(t[2..]);
        } else {
          UnfoldEscape(t[1..]);
          Sequences.Behind(t[0], Unfold(t[1..]));
        }
      }
    }
  }

  lemma Two(a: Unit, b: Unit, rest: Text)
    ensures [a, b] + rest == [a] + ([b] + rest)
  {
  }

  function UnfoldedParts(parts: seq<Part>): seq<Part> {
    if parts == [] then []
    else [match parts[0] case One(u) => One(u) case Quoted(text) => Quoted(Unfold(text))] + UnfoldedParts(parts[1..])
  }

  function UnfoldedProperties(properties: seq<Property>): seq<Property> {
    if properties == [] then []
    else [properties[0].(value := UnfoldedParts(properties[0].value))] + UnfoldedProperties(properties[1..])
  }

  function UnfoldedMethod(m: Method): Method {
    if m.Reported? then m.(properties := UnfoldedProperties(m.properties)) else m
  }

  function UnfoldedMethods(methods: seq<Method>): (unfolded: seq<Method>)
    ensures |unfolded| == |methods|
    ensures forall i :: 0 <= i < |methods| ==> unfolded[i] == UnfoldedMethod(methods[i])
  {
    if methods == [] then [] else [UnfoldedMethod(methods[0])] + UnfoldedMethods(methods[1..])
  }

  /** The structure with the folds taken out of its quoted values. */
  function UnfoldedHeader(h: Header): Header {
    h.(methods := UnfoldedMethods(h.methods))
  }

  lemma {:induction false} UnfoldedPartsValid(parts: seq<Part>)
    requires forall i :: 0 <= i < |parts| ==> ValidPart(parts[i])
    ensures |UnfoldedParts(parts)| == |parts|
    ensures forall i :: 0 <= i < |parts| ==> ValidPart(UnfoldedParts(parts)[i])
  {
    if parts != [] {
      UnfoldedPartsValid(parts[1..]);
    }
  }

  lemma {:induction false} UnfoldedPropertiesValid(properties: seq<Property>)
    requires forall i :: 0 <= i < |properties| ==> ValidProperty(properties[i])
    ensures |UnfoldedProperties(properties)| == |properties|
    ensures forall i :: 0 <= i < |properties| ==> ValidProperty(UnfoldedProperties(properties)[i])
  {
    if properties != [] {
      UnfoldedPartsValid(properties[0].value);
      UnfoldedPropertiesValid(properties[1..]);
    }
  }

  lemma UnfoldedValid(h: Header)
    requires ValidHeader(h)
    ensures ValidHeader(UnfoldedHeader(h))
  {
    forall i | 0 <= i < |h.methods| ensures ValidMethod(UnfoldedMethod(h.methods[i])) {
      if h.methods[i].Reported? {
        UnfoldedPropertiesValid(h.methods[i].properties);
      }
    }
  }

  lemma {:induction false} UnfoldingMarks(t: Text, rest: Tokens)
    ensures Unfolding(Marks(t, rest)) == Marks(t, Unfolding(rest))
  {
    if t != [] {
      UnfoldingMarks(t[1..], rest);
    }
  }

  lemma {:induction false} UnfoldingValue(parts: seq<Part>, rest: Tokens)
    ensures Unfolding(ValueTokens(parts, rest)) == ValueTokens(UnfoldedParts(parts), Unfolding(rest))
  {
    if parts != [] {
      UnfoldingValue(parts[1..], rest);
      if parts[0].Quoted? {
        UnfoldEscape(parts[0].text);
      }
    }
  }

  lemma UnfoldingGap(gap: bool, rest: Tokens)
    ensures Unfolding(OptGap(gap, rest)) == OptGap(gap, Unfolding(rest))
  {
  }

  /** A mark, a gap and a word, one behind the other. */
  lemma UnfoldingMarked(u: Unit, gap: bool, w: Text, rest: Tokens)
    ensures Unfolding(Mark(u, OptGap(gap, Marks(w, rest)))) == Mark(u, OptGap(gap, Marks(w, Unfolding(rest))))
  {
    UnfoldingMarks(w, rest);
    UnfoldingGap(gap, Marks(w, rest));
  }

  lemma UnfoldingAssign(p: Property, rest: Tokens)
    ensures Unfolding(AssignTokens(p, rest)) == AssignTokens(p.(value := UnfoldedParts(p.value)), Unfolding(rest))
  {
    UnfoldingValue(p.value, rest);
    UnfoldingGap(p.g4, ValueTokens(p.value, rest));
  }

  lemma UnfoldingProperty(p: Property, rest: Tokens)
    ensures Unfolding(PropertyTokens(p, rest))
      == PropertyTokens(p.(value := UnfoldedParts(p.value)), Unfolding(rest))
  {
    UnfoldingAssign(p, rest);
    var assign := AssignTokens(p, rest);
    hide AssignTokens;
    if p.property.None? {
      UnfoldingGap(p.g1, assign);
      UnfoldingMarks(p.ptype, OptGap(p.g1, assign));
    } else {
      var property := p.property.value;
      UnfoldingGap(p.g3, assign);
      UnfoldingMarked(DOT, p.g2, property, OptGap(p.g3, assign));
      UnfoldingGap(p.g1, Mark(DOT, OptGap(p.g2, Marks(property, OptGap(p.g3, assign)))));
      UnfoldingMarks(p.ptype, OptGap(p.g1, Mark(DOT, OptGap(p.g2, Marks(property, OptGap(p.g3, assign))))));
    }
  }

  lemma {:induction false} UnfoldingProperties(properties: seq<Property>, tail: bool)
    ensures Unfolding(PropertiesTokens(properties, tail)) == PropertiesTokens(UnfoldedProperties(properties), tail)
  {
    if properties != [] {
      UnfoldingProperties(properties[1..], tail);
      UnfoldingProperty(properties[0], PropertiesTokens(properties[1..], tail));
    }
  }

  lemma UnfoldingVersion(m: Method, rest: Tokens)
    requires m.Reported?
    ensures Unfolding(VersionTokens(m, rest)) == VersionTokens(UnfoldedMethod(m), Unfolding(rest))
  {
    if m.version.Some? {
      UnfoldingGap(m.g3, rest);
      UnfoldingMarked(SLASH, m.g2, m.version.value, OptGap(m.g3, rest));
    }
  }

  lemma UnfoldingResult(m: Method)
    requires m.Reported?
    ensures Unfolding(ResultTokens(m)) == ResultTokens(UnfoldedMethod(m))
  {
    UnfoldingProperties(m.properties, m.tail);
    UnfoldingMarked(EQUALS, m.g4, m.result, PropertiesTokens(m.properties, m.tail));
  }

  lemma UnfoldingMethod(m: Method)
    ensures Unfolding(MethodTokens(m)) == MethodTokens(UnfoldedMethod(m))
  {
    if m.Reported? {
      var rest := VersionTokens(m, ResultTokens(m));
      UnfoldingResult(m);
      UnfoldingVersion(m, ResultTokens(m));
      hide VersionTokens, ResultTokens;
      UnfoldingGap(m.g1, rest);
      UnfoldingMarks(m.name, OptGap(m.g1, rest));
      UnfoldingGap(m.lead, Marks(m.name, OptGap(m.g1, rest)));
    } else {
      UnfoldingGap(m.tail, End);
      UnfoldingMarks(m.word, OptGap(m.tail, End));
      UnfoldingGap(m.lead, Marks(m.word, OptGap(m.tail, End)));
    }
  }

  lemma {:induction false} UnfoldWithoutBreaks(t: Text)
    requires forall i :: 0 <= i < |t| ==> t[i] != LF
    ensures Unfold(t) == t
  {
    if t != [] {
      UnfoldWithoutBreaks(t[1..]);
      Sequences.Cons(t);
    }
  }

  lemma UnfoldingServer(s: Server)
    requires ValidServer(s)
    ensures Unfolding(ServerTokens(s)) == ServerTokens(s)
  {
    assert forall i :: 0 <= i < |s.id| ==> !IsControl(s.id[i]);
    UnfoldWithoutBreaks(s.id);
    UnfoldEscape(s.id);
    UnfoldingMarks(VERSION, OptGap(s.tail, End));
    UnfoldingMarks(s.id, TailTokens(s));
  }

  function UnfoldingEach(pieces: seq<Tokens>): seq<Tokens> {
    if pieces == [] then [] else [Unfolding(pieces[0])] + UnfoldingEach(pieces[1..])
  }

  lemma {:induction false} UnfoldingAhead(ts: Tokens, after: Tokens)
    ensures Unfolding(Ahead(ts, after)) == Ahead(Unfolding(ts), Unfolding(after))
  {
    match ts {
      case End | Torn =>
      case Gap(rest) => UnfoldingAhead(rest, after);
      case Str(_, rest) => UnfoldingAhead(rest, after);
      case Mark(_, rest) => UnfoldingAhead(rest, after);
      case Semi(rest) => UnfoldingAhead(rest, after);
    }
  }

  lemma {:induction false} UnfoldingJoined(pieces: seq<Tokens>)
    requires pieces != []
    ensures UnfoldingEach(pieces) != [] && Unfolding(Joined(pieces)) == Joined(UnfoldingEach(pieces))
    ensures |UnfoldingEach(pieces)| == |pieces|
  {
    if |pieces| == 1 {
      assert pieces[1..] == [];
    } else {
      UnfoldingJoined(pieces[1..]);
      UnfoldingAhead(pieces[0], Semi(Joined(pieces[1..])));
      Sequences.Behind(Unfolding(pieces[0]), UnfoldingEach(pieces[1..]));
    }
  }

  lemma {:induction false} UnfoldingThen(a: seq<Tokens>, b: seq<Tokens>)
    ensures UnfoldingEach(a + b) == UnfoldingEach(a) + UnfoldingEach(b)
    decreases |a|
  {
    if a == [] {
      Sequences.Empty(b);
      Sequences.Empty(UnfoldingEach(b));
    } else {
      Sequences.Tail(a, b);
      UnfoldingThen(a[1..], b);
      Sequences.Assoc([Unfolding(a[0])], UnfoldingEach(a[1..]), UnfoldingEach(b));
    }
  }

  lemma {:induction false} UnfoldingMethods(methods: seq<Method>)
    ensures UnfoldingEach(EachTokens(methods)) == EachTokens(UnfoldedMethods(methods))
  {
    if methods != [] {
      UnfoldingMethod(methods[0]);
      UnfoldingMethods(methods[1..]);
      hide MethodTokens, UnfoldedMethod;
      Sequences.Behind(MethodTokens(methods[0]), EachTokens(methods[1..]));
      Sequences.Behind(UnfoldedMethod(methods[0]), UnfoldedMethods(methods[1..]));
    }
  }

  lemma UnfoldingOne(piece: Tokens)
    ensures UnfoldingEach([piece]) == [Unfolding(piece)]
  {
    assert [piece][1..] == [];
  }

  lemma UnfoldingPieces(h: Header)
    requires ValidHeader(h)
    ensures UnfoldingEach(Pieces(h)) == Pieces(UnfoldedHeader(h))
    ensures Unfolding(TokensOf(h)) == TokensOf(UnfoldedHeader(h))
  {
    var server := if h.server.Some? then [ServerTokens(h.server.value)] else [];
    var closing := if h.closing.Some? then [OptGap(h.closing.value, End)] else [];
    if h.server.Some? {
      UnfoldingServer(h.server.value);
      UnfoldingOne(ServerTokens(h.server.value));
    }
    if h.closing.Some? {
      UnfoldingOne(OptGap(h.closing.value, End));
    }
    hide ServerTokens, EachTokens, MethodTokens;
    UnfoldingMethods(h.methods);
    UnfoldingThen(server, EachTokens(h.methods));
    UnfoldingThen(server + EachTokens(h.methods), closing);
    UnfoldingJoined(Pieces(h));
  }

  /** The printed form of every structure within the bounds reads back as the
      structure, but for the folds of its quoted values, which are taken out:
      a line feed there stays unless a space or a tab follows it. */
  lemma PrintedHeaderReadsBack(h: Header, lower: Text -> Text)
    requires ValidHeader(h) && WithinBounds(Print(TokensOf(h)))
    ensures Parse(Print(TokensOf(h)), lower) == Summarize(ServerText(h), Means(UnfoldedHeader(h).methods, lower))
    ensures Told(Parse(Print(TokensOf(h)), lower), UnfoldedHeader(h), lower)
  {
    hide Told;
    var text, unfolded := Print(TokensOf(h)), UnfoldedHeader(h);
    HeaderPieces(h);
    JoinedPrintable(Pieces(h));
    UnfoldPrint(TokensOf(h));
    UnfoldingPieces(h);
    UnfoldedValid(h);
    HeaderPieces(unfolded);
    JoinedPrintable(Pieces(unfolded));
    hide Unfold, Unfolding, Parse, Summarize, Pieces, Print;
    Sequences.From0(Unfold(text));
    PrintedTokens(Unfold(text), 0, TokensOf(unfolded));
    WrittenHeaderReadsBack(text, unfolded, lower);
  }

  /** Without folds it is the structure itself. */
  lemma FoldlessHeaderReadsBack(h: Header, lower: Text -> Text)
    requires ValidHeader(h) && WithinBounds(Print(TokensOf(h))) && UnfoldedHeader(h) == h
    ensures Parse(Print(TokensOf(h)), lower) == Summarize(ServerText(h), Means(h.methods, lower))
    ensures Told(Parse(Print(TokensOf(h)), lower), h, lower)
  {
    hide Told;
    PrintedHeaderReadsBack(h, lower);
  }

  const DMARC_NAME: Text := Ascii("dmarc")
  const PASS_NAME: Text := Ascii("pass")
  const HEADER_NAME: Text := Ascii("header")
  const FROM_NAME: Text := Ascii("from")

  /** The result of a message whose DMARC domain is a quoted text. */
  function DomainMethod(domain: Text): Method {
    var from := Property(HEADER_NAME, false, Some(FROM_NAME), false, false, false, [Quoted(domain)]);
    Reported(false, DMARC_NAME, false, None, false, false, false, PASS_NAME, [from], false)
  }

  function DomainHeader(domain: Text): Header {
    Header(None, [DomainMethod(domain)], None)
  }

  lemma DomainWords()
    ensures IsWord(DMARC_NAME) && IsWord(PASS_NAME) && IsWord(HEADER_NAME) && IsWord(FROM_NAME)
  {
  }

  lemma DomainValid(domain: Text)
    ensures ValidHeader(DomainHeader(domain))
  {
    DomainWords();
    hide IsWord;
    assert ValidProperty(DomainMethod(domain).properties[0]);
    assert ValidMethod(DomainMethod(domain));
  }

  lemma DomainUnfolds(domain: Text)
    ensures UnfoldedHeader(DomainHeader(domain)) == DomainHeader(Unfold(domain))
  {
    var m := DomainMethod(domain);
    var p := m.properties[0];
    hide Unfold;
    assert p.value[1..] == [] && m.properties[1..] == [] && [m][1..] == [];
    assert UnfoldedParts(p.value) == [Quoted(Unfold(domain))] + UnfoldedParts([]) == [Quoted(Unfold(domain))];
    assert UnfoldedProperties(m.properties) == [p.(value := UnfoldedParts(p.value))] + UnfoldedProperties([])
      == [p.(value := UnfoldedParts(p.value))];
    assert UnfoldedMethod(m) == DomainMethod(Unfold(domain));
    assert UnfoldedMethods([m]) == [UnfoldedMethod(m)] + UnfoldedMethods([]);
  }

  lemma DomainMeans(domain: Text, lower: Text -> Text)
    ensures Means(DomainHeader(domain).methods, lower)
         == [Clause(DMARC_NAME, VerdictOf(PASS_NAME), Some(WithoutClosingDot(lower(domain))))]
  {
    var m := DomainMethod(domain);
    var p := m.properties[0];
    assert p.value[1..] == [] && [m][1..] == [];
    Sequences.Empty(domain);
    assert Lower(NameText(p)) == FROM;
    assert ValueText(p.value) == domain + ValueText([]);
    assert FirstValue(m.properties, FROM) == Some(ValueText(p.value));
    assert Means([m], lower) == [MeansOf(m, lower)] + Means([], lower);
    assert Lower(m.name) == DMARC_NAME;
  }

  lemma OneDomain(verdict: Verdict, domain: Text)
    ensures Summarize(None, [Clause(DMARC_NAME, verdict, Some(domain))]).Some?
    ensures Summarize(None, [Clause(DMARC_NAME, verdict, Some(domain))]).value.dmarcFrom == Some(domain)
  {
    var clause := Clause(DMARC_NAME, verdict, Some(domain));
    assert [clause][1..] == [];
    assert Of([clause], DMARC_NAME) == [clause];
  }

  /** A quoted domain reads back exactly when its folds change nothing of what
      is compared. */
  lemma QuotedDomainReadsBackExactly(domain: Text, lower: Text -> Text)
    requires WithinBounds(Print(TokensOf(DomainHeader(domain))))
    ensures Parse(Print(TokensOf(DomainHeader(domain))), lower)
         == Summarize(None, Means(DomainHeader(domain).methods, lower))
      <==> WithoutClosingDot(lower(Unfold(domain))) == WithoutClosingDot(lower(domain))
  {
    hide Parse, Summarize, Means, Print, TokensOf, Unfold, WithoutClosingDot, WithinBounds, ValidHeader;
    hide DomainMethod, UnfoldedHeader, VerdictOf;
    DomainValid(domain);
    DomainUnfolds(domain);
    PrintedHeaderReadsBack(DomainHeader(domain), lower);
    DomainMeans(domain, lower);
    DomainMeans(Unfold(domain), lower);
    OneDomain(VerdictOf(PASS_NAME), WithoutClosingDot(lower(domain)));
    OneDomain(VerdictOf(PASS_NAME), WithoutClosingDot(lower(Unfold(domain))));
  }

  predicate IsAscii(t: Text) {
    forall i :: 0 <= i < |t| ==> t[i] < 0x80
  }

  lemma {:induction false} AsciiBytes(t: Text)
    requires IsAscii(t)
    ensures ByteLength(t) == |t|
  {
    if t != [] {
      AsciiBytes(t[1..]);
    }
  }

  lemma {:induction false} PrintMarks(t: Text, rest: Tokens)
    ensures Print(Marks(t, rest)) == t + Print(rest)
  {
    if t == [] {
      Sequences.Empty(Print(rest));
    } else {
      PrintMarks(t[1..], rest);
      Sequences.Cons(t);
      Sequences.Assoc([t[0]], t[1..], Print(rest));
    }
  }

  lemma DomainTokens(domain: Text)
    ensures TokensOf(DomainHeader(domain))
         == Marks(DMARC_NAME, Mark(EQUALS, Marks(PASS_NAME, Gap(
              Marks(HEADER_NAME, Mark(DOT, Marks(FROM_NAME, Mark(EQUALS, Str(Escape(domain), End)))))))))
  {
    var h := DomainHeader(domain);
    var m := DomainMethod(domain);
    var p := m.properties[0];
    assert p.value[1..] == [] && m.properties[1..] == [] && [m][1..] == [];
    assert ValueTokens(p.value, End) == Str(Escape(domain), End);
    assert PropertiesTokens(m.properties, false) == Gap(PropertyTokens(p, PropertiesTokens([], false)));
    assert Pieces(h) == [MethodTokens(m)];
  }

  lemma DomainPrint(domain: Text)
    ensures Print(TokensOf(DomainHeader(domain)))
         == DMARC_NAME + ([EQUALS] + (PASS_NAME + ([SPACE] + (HEADER_NAME + ([DOT]
              + (FROM_NAME + ([EQUALS] + ([QUOTE] + (Escape(domain) + ([QUOTE] + []))))))))))
  {
    DomainTokens(domain);
    var value := Mark(EQUALS, Str(Escape(domain), End));
    var from := Mark(DOT, Marks(FROM_NAME, value));
    var property := Gap(Marks(HEADER_NAME, from));
    hide TokensOf, Escape, DomainMethod, Marks;
    assert Print(End) == [];
    assert Print(Str(Escape(domain), End)) == [QUOTE] + (Escape(domain) + ([QUOTE] + Print(End)));
    assert Print(value) == [EQUALS] + ([QUOTE] + (Escape(domain) + ([QUOTE] + [])));
    assert Print(property) == [SPACE] + Print(Marks(HEADER_NAME, from));
    PrintMarks(FROM_NAME, value);
    PrintMarks(HEADER_NAME, from);
    PrintMarks(PASS_NAME, property);
    PrintMarks(DMARC_NAME, Mark(EQUALS, Marks(PASS_NAME, property)));
  }

  lemma AsciiThen(a: Text, b: Text)
    requires IsAscii(a) && IsAscii(b)
    ensures IsAscii(a + b) && |a + b| == |a| + |b|
  {
  }

  lemma DomainFits(domain: Text)
    requires IsAscii(Escape(domain)) && |Escape(domain)| < 100
    ensures WithinBounds(Print(TokensOf(DomainHeader(domain))))
  {
    DomainPrint(domain);
    hide Print, TokensOf, Escape, ByteLength;
    var from := [DOT] + (FROM_NAME + ([EQUALS] + ([QUOTE] + (Escape(domain) + ([QUOTE] + [])))));
    AsciiThen(Escape(domain), [QUOTE] + []);
    assert IsAscii(from) && |from| < 120;
    var property := [SPACE] + (HEADER_NAME + from);
    assert IsAscii(property) && |property| < 140;
    var text := DMARC_NAME + ([EQUALS] + (PASS_NAME + property));
    assert IsAscii(text) && |text| < 200;
    AsciiBytes(text);
  }

  lemma FoldBeforeSpace()
    ensures Unfold([LF, SPACE]) == [SPACE] && Escape([LF, SPACE]) == [LF, SPACE]
  {
    assert [LF, SPACE][1..] == [SPACE] && [SPACE][1..] == [];
    UnfoldOne(SPACE);
    assert Escape([SPACE]) == [SPACE] + Escape([]) && Escape([LF, SPACE]) == [LF] + Escape([SPACE]);
  }

  /** A line feed ahead of a space is lost: not every printed structure reads
      back as itself. */
  lemma FoldIsLost(lower: Text -> Text)
    requires lower([SPACE]) == [SPACE] && lower([LF, SPACE]) == [LF, SPACE]
    ensures var h := DomainHeader([LF, SPACE]);
      ValidHeader(h) && WithinBounds(Print(TokensOf(h)))
      && Parse(Print(TokensOf(h)), lower) != Summarize(ServerText(h), Means(h.methods, lower))
  {
    FoldBeforeSpace();
    hide Parse, Summarize, Means, Print, TokensOf, Unfold, Escape, WithinBounds, DomainMethod, ValidHeader;
    DomainValid([LF, SPACE]);
    DomainFits([LF, SPACE]);
    QuotedDomainReadsBackExactly([LF, SPACE], lower);
  }

  // ---------------------------------------------------------------------
  // Whitespace and comments
  // ---------------------------------------------------------------------

  /** The tokens of two texts one after the other. */
  function Then(ts: Tokens, after: Tokens): Tokens {
    match ts
    case End => after
    case Torn => Torn
    case Gap(rest) => Gapped(Then(rest, after))
    case Str(body, rest) => Str(body, Then(rest, after))
    case Mark(u, rest) => Mark(u, Then(rest, after))
    case Semi(rest) => Semi(Then(rest, after))
  }

  lemma {:induction false} CommentThen(a: Text, b: Text, at: nat, depth: nat)
    requires depth > 0 || At(a, at, OPEN)
    requires CommentRest(a, at, depth).Some?
    ensures depth > 0 || At(a + b, at, OPEN)
    ensures CommentRest(a + b, at, depth) == CommentRest(a, at, depth)
    decreases |a| - at
  {
    assert (a + b)[at] == a[at];
    if a[at] == OPEN {
      CommentThen(a, b, at + 1, depth + 1);
    } else if a[at] == CLOSE {
      if depth > 1 { CommentThen(a, b, at + 1, depth - 1); }
    } else if a[at] == BACKSLASH {
      CommentThen(a, b, at + 2, depth);
    } else {
      CommentThen(a, b, at + 1, depth);
    }
  }

  lemma {:induction false} QuotedThen(a: Text, b: Text, at: nat)
    requires QuotedRest(a, at).Some?
    ensures QuotedRest(a + b, at) == QuotedRest(a, at)
    decreases |a| - at
  {
    assert (a + b)[at] == a[at];
    if a[at] != QUOTE {
      QuotedThen(a, b, at + if a[at] == BACKSLASH then 2 else 1);
    }
  }

  lemma {:induction false} CommentBehind(a: Text, b: Text, at: nat, depth: nat)
    requires depth > 0 || At(b, at, OPEN)
    ensures depth > 0 || At(a + b, |a| + at, OPEN)
    ensures CommentRest(a + b, |a| + at, depth)
         == match CommentRest(b, at, depth) case None => None case Some(end) => Some(|a| + end)
    decreases |b| - at
  {
    if at < |b| {
      assert (a + b)[|a| + at] == b[at];
      if b[at] == OPEN {
        CommentBehind(a, b, at + 1, depth + 1);
      } else if b[at] == CLOSE {
        if depth > 1 { CommentBehind(a, b, at + 1, depth - 1); }
      } else if b[at] == BACKSLASH {
        CommentBehind(a, b, at + 2, depth);
      } else {
        CommentBehind(a, b, at + 1, depth);
      }
    }
  }

  lemma PieceBehind(a: Text, b: Text, at: nat)
    requires at < |b|
    ensures (a + b)[|a| + at] == b[at]
    ensures PieceEnd(a + b, |a| + at) == match PieceEnd(b, at) case None => None case Some(end) => Some(|a| + end)
  {
    hide CommentRest, QuotedRest;
    if b[at] == OPEN { CommentBehind(a, b, at, 0); }
    if b[at] == QUOTE { QuotedBehind(a, b, at + 1); }
  }

  lemma PieceThen(a: Text, b: Text, at: nat)
    requires at < |a| && PieceEnd(a, at).Some?
    ensures (a + b)[at] == a[at] && PieceEnd(a + b, at) == PieceEnd(a, at)
  {
    hide CommentRest, QuotedRest;
    if a[at] == OPEN { CommentThen(a, b, at, 0); }
    if a[at] == QUOTE { QuotedThen(a, b, at + 1); }
  }

  /** One piece, as its tokens are made. */
  lemma TokensStep(text: Text, at: nat)
    requires at < |text|
    ensures HeaderTokens(text, at) ==
      match PieceEnd(text, at)
      case None => None
      case Some(end) =>
        match HeaderTokens(text, end)
        case None => None
        case Some(rest) =>
          if text[at] == OPEN || IsSpace(text[at]) then Some(Gapped(rest))
          else if text[at] == QUOTE then Some(Str(text[at + 1..end - 1], rest))
          else if text[at] == SEMICOLON then Some(Semi(rest))
          else Some(Mark(text[at], rest))
  {
  }

  lemma {:induction false} TokensBehind(a: Text, b: Text, at: nat)
    requires at <= |b|
    ensures HeaderTokens(a + b, |a| + at) == HeaderTokens(b, at)
    decreases |b| - at
  {
    if at == |b| {
      NoneAhead(a + b);
      NoneAhead(b);
      hide HeaderTokens;
    } else {
      PieceBehind(a, b, at);
      TokensStep(b, at);
      TokensStep(a + b, |a| + at);
      hide PieceEnd, HeaderTokens;
      if PieceEnd(b, at).Some? {
        var end := PieceEnd(b, at).value;
        TokensBehind(a, b, end);
        if b[at] == QUOTE { SliceBehind(a, b, at + 1, end - 1); }
      }
    }
  }

  lemma SliceThen(a: Text, b: Text, from: nat, to: nat)
    requires from <= to <= |a|
    ensures (a + b)[from..to] == a[from..to]
  {
  }

  lemma {:induction false} TokensThen(a: Text, b: Text, at: nat)
    requires at <= |a|
    requires HeaderTokens(a, at).Some? && HeaderTokens(b, 0).Some?
    ensures HeaderTokens(a + b, at) == Some(Then(HeaderTokens(a, at).value, HeaderTokens(b, 0).value))
    decreases |a| - at
  {
    if at == |a| {
      NoneAhead(a);
      TokensBehind(a, b, 0);
      hide HeaderTokens;
    } else {
      TokensStep(a, at);
      PieceThen(a, b, at);
      TokensStep(a + b, at);
      hide PieceEnd, HeaderTokens;
      var end := PieceEnd(a, at).value;
      TokensThen(a, b, end);
      if a[at] == QUOTE { SliceThen(a, b, at + 1, end - 1); }
    }
  }

  predicate EndsInGap(ts: Tokens) {
    match ts
    case End | Torn => false
    case Gap(rest) => rest.End? || EndsInGap(rest)
    case Str(_, rest) => EndsInGap(rest)
    case Mark(_, rest) => EndsInGap(rest)
    case Semi(rest) => EndsInGap(rest)
  }

  predicate Merged(ts: Tokens) {
    match ts
    case End | Torn => true
    case Gap(rest) => !rest.Gap? && Merged(rest)
    case Str(_, rest) => Merged(rest)
    case Mark(_, rest) => Merged(rest)
    case Semi(rest) => Merged(rest)
  }

  lemma {:induction false} TokensMerged(text: Text, at: nat)
    requires at <= |text| && HeaderTokens(text, at).Some?
    ensures Merged(HeaderTokens(text, at).value)
    decreases |text| - at
  {
    if at < |text| {
      TokensMerged(text, PieceEnd(text, at).value);
    }
  }

  lemma {:induction false} GapAbsorbed(ts: Tokens)
    requires EndsInGap(ts) && Merged(ts)
    ensures Then(ts, Gap(End)) == ts
  {
    match ts {
      case Gap(rest) => if !rest.End? { GapAbsorbed(rest); }
      case Str(_, rest) => GapAbsorbed(rest);
      case Mark(_, rest) => GapAbsorbed(rest);
      case Semi(rest) => GapAbsorbed(rest);
    }
  }

  /** A text that holds whitespace and whole comments alone. */
  predicate IsGapText(text: Text) {
    text == [] || HeaderTokens(text, 0) == Some(Gap(End))
  }

  /** A comment of any nesting is gap text, and so is one gap text after
      another. */
  lemma CommentIsGapText(c: Content)
    requires ValidContent(c)
    ensures IsGapText([OPEN] + Written(c, [CLOSE]))
  {
    var text := [OPEN] + Written(c, [CLOSE]);
    Sequences.Empty([CLOSE]);
    assert Sequences.From(text, 0, [OPEN] + Written(c, [CLOSE] + [])) by {
      assert text[0..] == text;
    }
    CommentEndsWhereItCloses(text, 0, c, []);
    hide CommentEnd;
    assert HeaderTokens(text, |text|) == Some(End);
  }

  lemma GapTextsAreGapText(a: Text, b: Text)
    requires IsGapText(a) && IsGapText(b)
    ensures IsGapText(a + b)
  {
    hide HeaderTokens;
    if a == [] {
      Sequences.Empty(b);
    } else if b == [] {
      Sequences.Empty(a);
    } else {
      TokensThen(a, b, 0);
    }
  }

  lemma {:induction false} GapAbsorbedAhead(ts: Tokens, rest: Tokens)
    ensures Then(Then(ts, Gap(End)), Gap(rest)) == Then(ts, Gap(rest))
  {
    match ts {
      case End | Torn =>
      case Gap(more) => GapAbsorbedAhead(more, rest);
      case Str(_, more) => GapAbsorbedAhead(more, rest);
      case Mark(_, more) => GapAbsorbedAhead(more, rest);
      case Semi(more) => GapAbsorbedAhead(more, rest);
    }
  }

  lemma {:induction false} ThenEnd(ts: Tokens)
    requires Merged(ts)
    ensures Then(ts, End) == ts
  {
    match ts {
      case End | Torn =>
      case Gap(rest) => ThenEnd(rest);
      case Str(_, rest) => ThenEnd(rest);
      case Mark(_, rest) => ThenEnd(rest);
      case Semi(rest) => ThenEnd(rest);
    }
  }

  // A line break that ends tokenized text is whitespace of its own.

  lemma {:induction false} CommentFront(a: Text, w: Unit, at: nat, depth: nat)
    requires (w == CR || w == LF) && (depth > 0 || At(a + [w], at, OPEN))
    requires CommentRest(a + [w], at, depth).Some?
    ensures depth > 0 || At(a, at, OPEN)
    ensures CommentRest(a, at, depth) == CommentRest(a + [w], at, depth)
    decreases |a| + 1 - at
  {
    if at < |a| {
      assert (a + [w])[at] == a[at];
      if a[at] == OPEN {
        CommentFront(a, w, at + 1, depth + 1);
      } else if a[at] == CLOSE {
        if depth > 1 { CommentFront(a, w, at + 1, depth - 1); }
      } else if a[at] == BACKSLASH {
        CommentFront(a, w, at + 2, depth);
      } else {
        CommentFront(a, w, at + 1, depth);
      }
    }
  }

  lemma {:induction false} QuotedFront(a: Text, w: Unit, at: nat)
    requires (w == CR || w == LF) && QuotedRest(a + [w], at).Some?
    ensures QuotedRest(a, at) == QuotedRest(a + [w], at)
    decreases |a| + 1 - at
  {
    if at < |a| {
      assert (a + [w])[at] == a[at];
      if a[at] != QUOTE {
        QuotedFront(a, w, at + if a[at] == BACKSLASH then 2 else 1);
      }
    }
  }

  lemma PieceFront(a: Text, w: Unit, at: nat)
    requires (w == CR || w == LF) && at < |a| && PieceEnd(a + [w], at).Some?
    ensures PieceEnd(a, at) == PieceEnd(a + [w], at)
  {
    hide CommentRest, QuotedRest;
    assert (a + [w])[at] == a[at];
    if a[at] == OPEN { CommentFront(a, w, at, 0); }
    if a[at] == QUOTE { QuotedFront(a, w, at + 1); }
  }

  lemma {:induction false} TokensFront(a: Text, w: Unit, at: nat)
    requires (w == CR || w == LF) && at <= |a| && HeaderTokens(a + [w], at).Some?
    ensures HeaderTokens(a, at).Some?
    decreases |a| - at
  {
    if at < |a| {
      PieceFront(a, w, at);
      hide PieceEnd;
      TokensFront(a, w, PieceEnd(a, at).value);
    }
  }

  lemma BreakIsGap(a: Text, w: Unit)
    requires (w == CR || w == LF) && HeaderTokens(a + [w], 0).Some?
    ensures HeaderTokens(a, 0).Some?
    ensures HeaderTokens(a + [w], 0).value == Then(HeaderTokens(a, 0).value, Gap(End))
  {
    TokensFront(a, w, 0);
    assert HeaderTokens([w], 1) == Some(End) && HeaderTokens([w], 0) == Some(Gap(End));
    hide HeaderTokens;
    TokensThen(a, [w], 0);
  }

  /** A line break between the texts adds nothing to whitespace behind it. */
  lemma CutIsGap(head: Text, cut: Text, rest: Tokens)
    requires cut == [CR] || cut == [LF] || cut == [CR, LF]
    requires HeaderTokens(head + cut, 0).Some?
    ensures HeaderTokens(head, 0).Some?
    ensures Then(HeaderTokens(head + cut, 0).value, Gap(rest)) == Then(HeaderTokens(head, 0).value, Gap(rest))
  {
    hide HeaderTokens;
    if cut == [CR, LF] {
      Sequences.Assoc(head, [CR], [LF]);
      assert cut == [CR] + [LF];
      BreakIsGap(head + [CR], LF);
      BreakIsGap(head, CR);
      GapAbsorbedAhead(HeaderTokens(head + [CR], 0).value, rest);
    } else {
      BreakIsGap(head, cut[0]);
    }
    GapAbsorbedAhead(HeaderTokens(head, 0).value, rest);
  }

  lemma BlankTokens(text: Text)
    requires OpensBlank(text) && HeaderTokens(text, 0).Some?
    ensures HeaderTokens(text, 0).value.Gap?
  {
  }

  /** The tokens of two texts one after the other, unfolded together: those of
      each unfolded alone. */
  lemma SeamTokens(a: Text, b: Text)
    requires HeaderTokens(Unfold(a), 0).Some?
    ensures HeaderTokens(Unfold(a + b), 0)
         == match HeaderTokens(Unfold(b), 0)
            case None => None
            case Some(after) => Some(Then(HeaderTokens(Unfold(a), 0).value, after))
  {
    hide HeaderTokens, Unfold;
    var head, cut := UnfoldSeam(a, b);
    var after := HeaderTokens(Unfold(b), 0);
    if cut == [] {
      Sequences.Empty(head);
    } else {
      CutIsGap(head, cut, End);
      if after.Some? {
        BlankTokens(Unfold(b));
        CutIsGap(head, cut, after.value.rest);
      }
    }
    if after.Some? {
      TokensThen(head, Unfold(b), 0);
    } else {
      TornAfter(head, Unfold(b));
    }
  }

  /** Whitespace or a comment stands behind or ahead of a place outside every
      quoted string and comment. */
  predicate BesideGap(before: Text, after: Text) {
    && HeaderTokens(Unfold(before), 0).Some?
    && (EndsInGap(HeaderTokens(Unfold(before), 0).value)
        || (HeaderTokens(Unfold(after), 0).Some? && HeaderTokens(Unfold(after), 0).value.Gap?))
  }

  lemma GapTextAbsorbed(before: Text, gap: Text, after: Text)
    requires IsGapText(Unfold(gap)) && BesideGap(before, after)
    ensures HeaderTokens(Unfold(before + gap + after), 0) == HeaderTokens(Unfold(before + after), 0)
  {
    GapTextTokens(Unfold(gap));
    hide HeaderTokens, Unfold, IsGapText;
    SeamTokens(before, after);
    SeamTokens(before, gap);
    SeamTokens(before + gap, after);
    var ahead := HeaderTokens(Unfold(before), 0).value;
    TokensMerged(Unfold(before), 0);
    ThenEnd(ahead);
    if EndsInGap(ahead) {
      GapAbsorbed(ahead);
    } else {
      GapAbsorbedAhead(ahead, HeaderTokens(Unfold(after), 0).value.rest);
    }
  }

  lemma GapTextTokens(gap: Text)
    requires IsGapText(gap)
    ensures HeaderTokens(gap, 0) == Some(End) || HeaderTokens(gap, 0) == Some(Gap(End))
  {
  }

  /** Widening: beside whitespace or a comment outside every quoted string, more
      whitespace and comments change nothing a header within bounds reads as. */
  lemma WideningKeepsResult(before: Text, gap: Text, after: Text, lower: Text -> Text)
    requires WithinBounds(before + after) && WithinBounds(before + gap + after)
    requires IsGapText(Unfold(gap)) && BesideGap(before, after)
    ensures Parse(before + gap + after, lower) == Parse(before + after, lower)
  {
    GapTextAbsorbed(before, gap, after);
    hide Parse, HeaderTokens, Unfold, BesideGap, IsGapText;
    SameTokensSameResults(before + gap + after, before + after, lower);
  }

  /** Behind text that tokenizes, text that does not still does not. */
  lemma TornAfter(a: Text, b: Text)
    requires HeaderTokens(a, 0).Some? && HeaderTokens(b, 0).None?
    ensures HeaderTokens(a + b, 0).None?
  {
    TornFrom(a, b, 0);
  }

  lemma {:induction false} TornFrom(a: Text, b: Text, at: nat)
    requires at <= |a| && HeaderTokens(a, at).Some? && HeaderTokens(b, 0).None?
    ensures HeaderTokens(a + b, at).None?
    decreases |a| - at
  {
    if at == |a| {
      NoneAhead(a);
      TokensBehind(a, b, 0);
      hide HeaderTokens;
    } else {
      TokensStep(a, at);
      PieceThen(a, b, at);
      TokensStep(a + b, at);
      hide PieceEnd, HeaderTokens;
      TornFrom(a, b, PieceEnd(a, at).value);
    }
  }
}

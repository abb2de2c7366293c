/** A plain message as blocks: lines in runs of one depth, runs in quotes per
    level, and addresses as links while a budget lasts. Texts are sequences of
    UTF-16 code units. */
module PlainText {
  import opened Wrappers
  import Sequences

  type Unit = u: int | 0 <= u < 0x1_0000
  type Text = seq<Unit>

  const LINE_BREAK: Unit := 10
  const SPACE: Unit := 32
  const QUOTE_MARK: Unit := 62

  const QUOTE_DEPTH_MAX := 3
  const LINES_MAX := 50_000
  const RUNS_MAX := 2000
  const LINKS_MAX := 2000
  const SEARCH_MAX := 256 * 1024

  // ---------------------------------------------------------------------
  // The first lines of a text
  // ---------------------------------------------------------------------

  function Breaks(text: Text): nat
    decreases |text|
  {
    if text == [] then 0 else (if text[0] == LINE_BREAK then 1 else 0) + Breaks(text[1..])
  }

  lemma {:induction false} BreaksSplit(a: Text, b: Text)
    ensures Breaks(a + b) == Breaks(a) + Breaks(b)
    decreases |a|
  {
    if a == [] {
      Sequences.Empty(b);
    } else {
      Sequences.Tail(a, b);
      BreaksSplit(a[1..], b);
    }
  }

  lemma {:induction false} NoBreaks(text: Text)
    requires LINE_BREAK !in text
    ensures Breaks(text) == 0
    decreases |text|
  {
    if text != [] {
      NoBreaks(text[1..]);
    }
  }

  method IndexOfBreak(text: Text, from: nat) returns (at: int)
    requires from <= |text|
    ensures at == -1 ==> LINE_BREAK !in text[from..]
    ensures at != -1 ==> from <= at < |text| && text[at] == LINE_BREAK && LINE_BREAK !in text[from..at]
  {
    at := from;
    while at < |text| && text[at] != LINE_BREAK
      invariant from <= at <= |text| && LINE_BREAK !in text[from..at]
    {
      Sequences.Extend(text, from, at);
      at := at + 1;
    }
    if at == |text| {
      Sequences.Past(text, from, |text|);
      at := -1;
    }
  }

  /** Where the next break stands, -1 where the text has no more. */
  method NextBreak(text: Text, from: nat) returns (at: int)
    requires from <= |text|
    ensures at == -1 ==> Breaks(text) == Breaks(text[..from])
    ensures at != -1 ==> from <= at < |text| && text[at] == LINE_BREAK
    ensures at != -1 ==> Breaks(text[..at + 1]) == Breaks(text[..from]) + 1
  {
    at := IndexOfBreak(text, from);
    if at == -1 {
      Sequences.Split(text, from);
      NoBreaks(text[from..]);
      BreaksSplit(text[..from], text[from..]);
    } else {
      OneMoreBreak(text, from, at);
    }
  }

  lemma BreaksGrow(text: Text, end: nat)
    requires end <= |text|
    ensures Breaks(text[..end]) <= Breaks(text) && text[..end] <= text
  {
    Sequences.Split(text, end);
    BreaksSplit(text[..end], text[end..]);
  }

  predicate EndsInBreak(text: Text) {
    text != [] && text[|text| - 1] == LINE_BREAK
  }

  lemma BreaksPast(text: Text, end: nat)
    requires end < |text| && EndsInBreak(text)
    ensures Breaks(text[..end]) < Breaks(text)
  {
    var last := |text| - 1;
    Sequences.Split(text, last);
    BreaksSplit(text[..last], text[last..]);
    assert text[last..] == [LINE_BREAK];
    BreaksGrow(text[..last], end);
    Sequences.Slices(text, 0, last, 0, end);
  }

  lemma BreaksNone(text: Text)
    ensures Breaks(text[..0]) == 0
  {
  }

  /** The text up to its last whole line inside the bound, and whether more
      follows: cut behind the last break there is room for, or not at all. */
  method FirstLines(text: Text) returns (first: Text, more: bool)
    ensures first <= text && (more <==> first != text)
    ensures Breaks(first) <= 50_000
    ensures more ==> Breaks(first) == 50_000 && EndsInBreak(first)
    ensures more <==> Breaks(text) > 50_000 || (Breaks(text) == 50_000 && !EndsInBreak(text))
  {
    var end := -1;
    BreaksNone(text);
    hide Breaks;
    for line := 0 to LINES_MAX
      invariant -1 <= end < |text|
      invariant Breaks(text[..end + 1]) == line
      invariant line > 0 ==> end >= 0 && text[end] == LINE_BREAK
    {
      end := NextBreak(text, end + 1);
      if end == -1 {
        return text, false;
      }
    }
    BreaksGrow(text, end + 1);
    if end + 1 < |text| && EndsInBreak(text) {
      BreaksPast(text, end + 1);
    }
    first, more := text[..end + 1], end + 1 < |text|;
    Sequences.Ends(text);
  }

  lemma OneMoreBreak(text: Text, from: nat, at: nat)
    requires from <= at < |text| && text[at] == LINE_BREAK && LINE_BREAK !in text[from..at]
    ensures Breaks(text[..at + 1]) == Breaks(text[..from]) + 1
  {
    Sequences.Grow(text, at);
    assert text[..at] == text[..from] + text[from..at];
    NoBreaks(text[from..at]);
    BreaksSplit(text[..from], text[from..at]);
    BreaksSplit(text[..at], [text[at]]);
    assert Breaks([text[at]]) == 1;
  }

  // ---------------------------------------------------------------------
  // Lines in runs
  // ---------------------------------------------------------------------

  datatype Line = Line(depth: nat, text: Text)

  datatype Run = Run(start: nat, depth: nat, lines: seq<Text>)

  function Repeat(count: nat): Text {
    if count == 0 then [] else [QUOTE_MARK] + Repeat(count - 1)
  }

  /** A line with the quote marks its depth stands for. */
  function AsWritten(line: Line): Text {
    if line.depth == 0 then line.text else Repeat(line.depth) + [SPACE] + line.text
  }

  /** A quoted line past the bound reads as it was sent: a quote mark for each
      level, a space and its text. */
  lemma {:induction false} WrittenWithMarks(line: Line)
    ensures line.depth == 0 ==> AsWritten(line) == line.text
    ensures line.depth > 0 ==>
      && |AsWritten(line)| == line.depth + 1 + |line.text|
      && (forall i :: 0 <= i < line.depth ==> AsWritten(line)[i] == '>' as int)
      && AsWritten(line)[line.depth] == ' ' as int
      && AsWritten(line)[line.depth + 1..] == line.text
  {
    Marks(line.depth);
    hide Repeat;
  }

  lemma {:induction false} Marks(count: nat)
    ensures |Repeat(count)| == count && forall i :: 0 <= i < count ==> Repeat(count)[i] == '>' as int
  {
    if count > 0 {
      Marks(count - 1);
    }
  }

  /** The runs once a line, the one of this number, joined them. */
  function Joined(runs: seq<Run>, start: nat, line: Line): seq<Run> {
    var count := |runs|;
    if count > 0 && count == RUNS_MAX then
      runs[count - 1 := runs[count - 1].(lines := runs[count - 1].lines + [AsWritten(line)])]
    else if count > 0 && runs[count - 1].depth == line.depth then
      runs[count - 1 := runs[count - 1].(lines := runs[count - 1].lines + [line.text])]
    else if count == RUNS_MAX - 1 then runs + [Run(start, 0, [AsWritten(line)])]
    else runs + [Run(start, line.depth, [line.text])]
  }

  function LinesOfRun(run: Run): seq<Line> {
    seq(|run.lines|, i requires 0 <= i < |run.lines| => Line(run.depth, run.lines[i]))
  }

  /** The lines that runs of true depths stand for. */
  function LinesOf(runs: seq<Run>): seq<Line>
    decreases |runs|
  {
    if runs == [] then [] else LinesOf(Front(runs)) + LinesOfRun(Final(runs))
  }

  function Written(lines: seq<Line>): seq<Text> {
    seq(|lines|, i requires 0 <= i < |lines| => AsWritten(lines[i]))
  }

  function Front(runs: seq<Run>): seq<Run>
    requires runs != []
  {
    runs[..|runs| - 1]
  }

  function Final(runs: seq<Run>): Run
    requires runs != []
  {
    runs[|runs| - 1]
  }

  /** Each run begins where the lines ahead of it end and holds one at least;
      below the last one allowed, no two neighbours have one depth. */
  predicate Laid(runs: seq<Run>)
    decreases |runs|
  {
    runs == []
    || (Laid(Front(runs)) && |runs| <= RUNS_MAX
      && Final(runs).lines != [] && Final(runs).start == |LinesOf(Front(runs))|
      && (1 < |runs| < RUNS_MAX ==> Final(runs).depth != Final(Front(runs)).depth)
      && (|runs| == RUNS_MAX ==> Final(runs).depth == 0))
  }

  /** The runs hold these lines: all at their depths, or those past the bound
      as written in the last run. */
  ghost predicate Hold(runs: seq<Run>, lines: seq<Line>) {
    if |runs| < RUNS_MAX then LinesOf(runs) == lines
    else
      var ahead := LinesOf(Front(runs));
      |ahead| <= |lines| && ahead == lines[..|ahead|] && Final(runs).lines == Written(lines[|ahead|..])
  }

  lemma FrontOf(runs: seq<Run>, run: Run)
    ensures runs + [run] != [] && Front(runs + [run]) == runs && Final(runs + [run]) == run
  {
  }

  /** The last run with one more line. */
  function Longer(runs: seq<Run>, text: Text): seq<Run>
    requires runs != []
  {
    runs[|runs| - 1 := Final(runs).(lines := Final(runs).lines + [text])]
  }

  lemma FrontOfLonger(runs: seq<Run>, text: Text)
    requires runs != []
    ensures Longer(runs, text) != [] && |Longer(runs, text)| == |runs| && Front(Longer(runs, text)) == Front(runs)
    ensures Final(Longer(runs, text)) == Final(runs).(lines := Final(runs).lines + [text])
  {
  }

  lemma LinesOfLonger(run: Run, text: Text)
    ensures LinesOfRun(run.(lines := run.lines + [text])) == LinesOfRun(run) + [Line(run.depth, text)]
  {
  }

  lemma LinesOfFirst(start: nat, depth: nat, text: Text)
    ensures LinesOfRun(Run(start, depth, [text])) == [Line(depth, text)]
  {
  }

  lemma WrittenGrow(lines: seq<Line>, ahead: nat, line: Line)
    requires ahead <= |lines|
    ensures Written((lines + [line])[ahead..]) == Written(lines[ahead..]) + [AsWritten(line)]
    ensures (lines + [line])[..ahead] == lines[..ahead]
  {
    assert (lines + [line])[ahead..] == lines[ahead..] + [line];
  }

  /** Past the bound a line goes to the last run as written. */
  lemma JoinRest(runs: seq<Run>, lines: seq<Line>, line: Line)
    requires Laid(runs) && Hold(runs, lines) && |runs| == RUNS_MAX
    ensures var next := Longer(runs, AsWritten(line));
      Laid(next) && Hold(next, lines + [line])
  {
    FrontOfLonger(runs, AsWritten(line));
    WrittenGrow(lines, |LinesOf(Front(runs))|, line);
    hide LinesOf, Longer, Written;
  }

  lemma JoinSame(runs: seq<Run>, lines: seq<Line>, line: Line)
    requires Laid(runs) && Hold(runs, lines) && 0 < |runs| < RUNS_MAX && Final(runs).depth == line.depth
    ensures var next := Longer(runs, line.text);
      Laid(next) && Hold(next, lines + [line])
  {
    FrontOfLonger(runs, line.text);
    LinesOfLonger(Final(runs), line.text);
    Sequences.Assoc(LinesOf(Front(runs)), LinesOfRun(Final(runs)), [line]);
    hide LinesOfRun, Longer;
  }

  lemma JoinLast(runs: seq<Run>, lines: seq<Line>, line: Line)
    requires Laid(runs) && Hold(runs, lines) && |runs| == RUNS_MAX - 1
    ensures var next := runs + [Run(|lines|, 0, [AsWritten(line)])];
      Laid(next) && Hold(next, lines + [line])
  {
    var run := Run(|lines|, 0, [AsWritten(line)]);
    FrontOf(runs, run);
    WrittenGrow(lines, |lines|, line);
    Sequences.Ends(lines);
    hide LinesOf;
    assert Written(lines[|lines|..]) == [];
  }

  lemma JoinNew(runs: seq<Run>, lines: seq<Line>, line: Line)
    requires Laid(runs) && Hold(runs, lines) && |runs| < RUNS_MAX - 1
    requires runs != [] ==> Final(runs).depth != line.depth
    ensures var next := runs + [Run(|lines|, line.depth, [line.text])];
      Laid(next) && Hold(next, lines + [line])
  {
    FrontOf(runs, Run(|lines|, line.depth, [line.text]));
    LinesOfFirst(|lines|, line.depth, line.text);
    hide LinesOfRun;
  }

  lemma JoinKeeps(runs: seq<Run>, lines: seq<Line>, line: Line)
    requires Laid(runs) && Hold(runs, lines)
    ensures Laid(Joined(runs, |lines|, line)) && Hold(Joined(runs, |lines|, line), lines + [line])
  {
    hide Hold;
    if |runs| == RUNS_MAX {
      JoinRest(runs, lines, line);
    } else if runs != [] && Final(runs).depth == line.depth {
      JoinSame(runs, lines, line);
    } else if |runs| == RUNS_MAX - 1 {
      JoinLast(runs, lines, line);
    } else {
      JoinNew(runs, lines, line);
    }
  }

  /** All lines in at most so many runs; below the bound the runs say each
      line's depth and text, and past it the rest stands as written. */
  method RunsOf(lines: seq<Line>) returns (runs: seq<Run>)
    ensures Laid(runs) && Hold(runs, lines)
    ensures lines != [] ==> runs != []
    ensures |runs| <= 2000 && (|runs| < 2000 ==> LinesOf(runs) == lines)
  {
    runs := [];
    Sequences.Ends(lines);
    for start := 0 to |lines|
      invariant Laid(runs) && Hold(runs, lines[..start])
      invariant start > 0 ==> runs != []
    {
      var line := lines[start];
      JoinKeeps(runs, lines[..start], line);
      Sequences.Grow(lines, start);
      var count := |runs|;
      if count > 0 && count == RUNS_MAX {
        runs := runs[count - 1 := runs[count - 1].(lines := runs[count - 1].lines + [AsWritten(line)])];
      } else if count > 0 && runs[count - 1].depth == line.depth {
        runs := runs[count - 1 := runs[count - 1].(lines := runs[count - 1].lines + [line.text])];
      } else if count == RUNS_MAX - 1 {
        runs := runs + [Run(start, 0, [AsWritten(line)])];
      } else {
        runs := runs + [Run(start, line.depth, [line.text])];
      }
    }
  }

  // ---------------------------------------------------------------------
  // Runs in quotes
  // ---------------------------------------------------------------------

  datatype Node = Leaf(run: Run) | Quote(start: nat, nodes: seq<Node>)

  datatype Place = Place(run: Run, quotes: nat)

  function LevelOf(run: Run): nat {
    if run.depth < QUOTE_DEPTH_MAX then run.depth else QUOTE_DEPTH_MAX
  }

  /** The runs of some nodes in order, each with the quotes it stands under. */
  function Leaves(nodes: seq<Node>, quotes: nat): seq<Place>
    decreases nodes
  {
    if nodes == [] then [] else LeavesOf(nodes[0], quotes) + Leaves(nodes[1..], quotes)
  }

  function LeavesOf(node: Node, quotes: nat): seq<Place>
    decreases node
  {
    match node
    case Leaf(run) => [Place(run, quotes)]
    case Quote(_, nodes) => Leaves(nodes, quotes + 1)
  }

  /** No quote is empty or stands beside another, each named by the run it
      begins with. */
  predicate Shaped(nodes: seq<Node>, quotes: nat)
    decreases nodes
  {
    nodes == [] || (ShapedOne(nodes[0], quotes) && Shaped(nodes[1..], quotes)
      && (nodes[0].Quote? && |nodes| > 1 ==> nodes[1].Leaf?))
  }

  predicate ShapedOne(node: Node, quotes: nat)
    decreases node
  {
    match node
    case Leaf(_) => true
    case Quote(start, nodes) =>
      nodes != [] && Shaped(nodes, quotes + 1)
      && Leaves(nodes, quotes + 1) != [] && Leaves(nodes, quotes + 1)[0].run.start == start
  }

  function PlacesOf(runs: seq<Run>): seq<Place> {
    seq(|runs|, i requires 0 <= i < |runs| => Place(runs[i], LevelOf(runs[i])))
  }

  lemma {:induction false} LeavesAppend(nodes: seq<Node>, node: Node, quotes: nat)
    ensures Leaves(nodes + [node], quotes) == Leaves(nodes, quotes) + LeavesOf(node, quotes)
    decreases |nodes|
  {
    if nodes == [] {
      Sequences.Empty([node]);
      Sequences.Empty(LeavesOf(node, quotes));
      assert [node][1..] == [];
    } else {
      Sequences.Tail(nodes, [node]);
      LeavesAppend(nodes[1..], node, quotes);
      Sequences.Assoc(LeavesOf(nodes[0], quotes), Leaves(nodes[1..], quotes), LeavesOf(node, quotes));
    }
  }

  lemma {:induction false} ShapedAppend(nodes: seq<Node>, node: Node, quotes: nat)
    requires Shaped(nodes, quotes) && ShapedOne(node, quotes)
    requires nodes != [] && node.Quote? ==> nodes[|nodes| - 1].Leaf?
    ensures Shaped(nodes + [node], quotes)
    decreases |nodes|
  {
    if nodes == [] {
      Sequences.Empty([node]);
      assert [node][1..] == [];
    } else {
      Sequences.Tail(nodes, [node]);
      ShapedAppend(nodes[1..], node, quotes);
    }
  }

  lemma PlacesGrow(runs: seq<Run>, from: nat, to: nat, end: nat)
    requires from <= to <= end <= |runs|
    ensures PlacesOf(runs[from..end]) == PlacesOf(runs[from..to]) + PlacesOf(runs[to..end])
  {
  }

  /** The nodes of one level from an index on, up to the first run above it. */
  method Level(runs: seq<Run>, from: nat, depth: nat) returns (nodes: seq<Node>, at: nat)
    requires from <= |runs| && depth <= QUOTE_DEPTH_MAX
    ensures from <= at <= |runs| && (at < |runs| ==> LevelOf(runs[at]) < depth)
    ensures from < |runs| && LevelOf(runs[from]) >= depth ==> at > from && nodes != []
    ensures Leaves(nodes, depth) == PlacesOf(runs[from..at]) && Shaped(nodes, depth)
    decreases |runs| - from, QUOTE_DEPTH_MAX - depth
  {
    nodes, at := [], from;
    while at < |runs| && LevelOf(runs[at]) >= depth
      invariant from <= at <= |runs|
      invariant at > from ==> nodes != []
      invariant at == from ==> nodes == []
      invariant Leaves(nodes, depth) == PlacesOf(runs[from..at]) && Shaped(nodes, depth)
      invariant nodes != [] && nodes[|nodes| - 1].Quote? && at < |runs| ==> LevelOf(runs[at]) <= depth
      decreases |runs| - at
    {
      var run := runs[at];
      if LevelOf(run) == depth {
        LeavesAppend(nodes, Leaf(run), depth);
        ShapedAppend(nodes, Leaf(run), depth);
        PlacesGrow(runs, from, at, at + 1);
        assert PlacesOf(runs[at..at + 1]) == [Place(run, depth)];
        nodes := nodes + [Leaf(run)];
        at := at + 1;
      } else {
        var inner, next := Level(runs, at, depth + 1);
        assert PlacesOf(runs[at..next])[0].run == run;
        var quote := Quote(run.start, inner);
        LeavesAppend(nodes, quote, depth);
        ShapedAppend(nodes, quote, depth);
        PlacesGrow(runs, from, at, next);
        nodes := nodes + [quote];
        at := next;
      }
    }
  }

  /** The runs as the quotes they stand in: every run in order, each under as
      many quotes as its level says. */
  method Quoted(runs: seq<Run>) returns (nodes: seq<Node>)
    ensures Leaves(nodes, 0) == PlacesOf(runs) && Shaped(nodes, 0)
    ensures |Leaves(nodes, 0)| == |runs| && forall i :: 0 <= i < |runs| ==>
      Leaves(nodes, 0)[i] == Place(runs[i], if runs[i].depth < 3 then runs[i].depth else 3)
  {
    var at;
    nodes, at := Level(runs, 0, 0);
    Sequences.Ends(runs);
    Sequences.From0(runs);
  }

  // ---------------------------------------------------------------------
  // There is no other way to quote some runs
  // ---------------------------------------------------------------------

  /** How many places lead that stand deeper than a level. */
  function Deeper(places: seq<Place>, quotes: nat): (count: nat)
    ensures count <= |places|
    decreases |places|
  {
    if places == [] || places[0].quotes <= quotes then 0 else 1 + Deeper(places[1..], quotes)
  }

  lemma {:induction false} DeeperAll(places: seq<Place>, more: seq<Place>, quotes: nat)
    requires forall i :: 0 <= i < |places| ==> places[i].quotes > quotes
    requires more != [] ==> more[0].quotes <= quotes
    ensures Deeper(places + more, quotes) == |places|
    decreases |places|
  {
    if places == [] {
      Sequences.Empty(more);
    } else {
      Sequences.Tail(places, more);
      DeeperAll(places[1..], more, quotes);
    }
  }

  lemma {:induction false} LeavesDeep(nodes: seq<Node>, quotes: nat)
    ensures forall i :: 0 <= i < |Leaves(nodes, quotes)| ==> Leaves(nodes, quotes)[i].quotes >= quotes
    decreases nodes
  {
    if nodes != [] {
      LeavesDeep(nodes[1..], quotes);
      if nodes[0].Quote? {
        LeavesDeep(nodes[0].nodes, quotes + 1);
        assert LeavesOf(nodes[0], quotes) == Leaves(nodes[0].nodes, quotes + 1);
      }
    }
  }

  /** A first node's leaves are told from the rest by their depth. */
  lemma FirstNode(nodes: seq<Node>, quotes: nat)
    requires nodes != [] && Shaped(nodes, quotes)
    ensures var first, rest, all := LeavesOf(nodes[0], quotes), Leaves(nodes[1..], quotes), Leaves(nodes, quotes);
      && all == first + rest && first != []
      && (nodes[0].Leaf? ==> first == [Place(nodes[0].run, quotes)])
      && (nodes[0].Quote? ==> first[0].quotes > quotes && |first| == Deeper(all, quotes))
  {
    if nodes[0].Quote? {
      LeavesDeep(nodes[0].nodes, quotes + 1);
      if |nodes| > 1 {
        assert nodes[1..][0].Leaf?;
      }
      DeeperAll(LeavesOf(nodes[0], quotes), Leaves(nodes[1..], quotes), quotes);
    }
  }

  /** Leaves in order under their quotes, no quote empty or beside another:
      that is one tree only. */
  lemma {:induction false} OneWayToQuote(a: seq<Node>, b: seq<Node>, quotes: nat)
    requires Shaped(a, quotes) && Shaped(b, quotes) && Leaves(a, quotes) == Leaves(b, quotes)
    ensures a == b
    decreases a
  {
    if a == [] || b == [] {
      if a != [] {
        FirstNode(a, quotes);
      }
      if b != [] {
        FirstNode(b, quotes);
      }
    } else {
      FirstNode(a, quotes);
      FirstNode(b, quotes);
      var all := Leaves(a, quotes);
      var firstA, firstB := LeavesOf(a[0], quotes), LeavesOf(b[0], quotes);
      assert all[0] == firstA[0] && all[0] == firstB[0];
      assert |firstA| == |firstB|;
      Sequences.Parts(firstA, Leaves(a[1..], quotes));
      Sequences.Parts(firstB, Leaves(b[1..], quotes));
      OneWayToQuote(a[1..], b[1..], quotes);
      if a[0].Quote? {
        OneWayToQuote(a[0].nodes, b[0].nodes, quotes + 1);
      }
      Sequences.Cons(a);
      Sequences.Cons(b);
    }
  }

  // ---------------------------------------------------------------------
  // Addresses as links
  // ---------------------------------------------------------------------

  datatype Match = Match(index: nat, lastIndex: nat, url: Text, raw: Text)

  datatype Address = Address(href: Text, title: Text)

  datatype Piece = Plain(text: Text) | Link(text: Text, address: Address)

  /** What the finder of addresses gives: matches in order, none over another,
      each with the text it stands for. */
  predicate InOrder(text: Text, from: nat, matches: seq<Match>)
    decreases |matches|
  {
    matches == []
    || (var first := matches[0];
        && from <= first.index <= first.lastIndex <= |text|
        && first.raw == text[first.index..first.lastIndex]
        && InOrder(text, first.lastIndex, matches[1..]))
  }

  function TextOf(pieces: seq<Piece>): Text
    decreases |pieces|
  {
    if pieces == [] then [] else TextOf(pieces[..|pieces| - 1]) + pieces[|pieces| - 1].text
  }

  function LinksOf(pieces: seq<Piece>): seq<Piece>
    decreases |pieces|
  {
    if pieces == [] then []
    else
      var last := pieces[|pieces| - 1];
      LinksOf(pieces[..|pieces| - 1]) + if last.Link? then [last] else []
  }

  type Policy = (Text, Text) -> Option<Address>

  /** The first addresses the policy keeps, as many as may be drawn. */
  function Chosen(matches: seq<Match>, links: nat, policy: Policy): (chosen: seq<Piece>)
    ensures |chosen| <= links
    decreases |matches|
  {
    if matches == [] || links == 0 then []
    else
      var address := policy(matches[0].url, matches[0].raw);
      if address.None? then Chosen(matches[1..], links, policy)
      else [Link(matches[0].raw, address.value)] + Chosen(matches[1..], links - 1, policy)
  }

  /** How many of the matches the policy keeps. */
  function Keeps(matches: seq<Match>, policy: Policy): nat
    decreases |matches|
  {
    if matches == [] then 0
    else (if policy(matches[0].url, matches[0].raw).Some? then 1 else 0) + Keeps(matches[1..], policy)
  }

  /** The links drawn: of the matches the policy keeps each one the budget still
      has a link for, at its place among them, with its text and its address. */
  lemma {:induction false} ChosenAre(matches: seq<Match>, links: nat, policy: Policy, i: nat)
    requires i < |matches|
    ensures |Chosen(matches, links, policy)| == if Keeps(matches, policy) < links then Keeps(matches, policy) else links
    ensures var place, address := Keeps(matches[..i], policy), policy(matches[i].url, matches[i].raw);
      address.Some? && place < links ==>
        place < |Chosen(matches, links, policy)|
        && Chosen(matches, links, policy)[place] == Link(matches[i].raw, address.value)
    decreases |matches|
  {
    if links > 0 {
      var kept := policy(matches[0].url, matches[0].raw).Some?;
      var left := if kept then links - 1 else links;
      if |matches| > 1 {
        ChosenAre(matches[1..], left, policy, if i == 0 then 0 else i - 1);
      }
      if i > 0 {
        assert matches[..i][1..] == matches[1..][..i - 1];
      }
    }
  }

  /** The end of the last whole line. */
  function LineEnd(text: Text): (end: nat)
    ensures end <= |text| && LINE_BREAK !in text[end..]
    ensures end > 0 ==> text[end - 1] == LINE_BREAK
    decreases |text|
  {
    if text == [] || text[|text| - 1] == LINE_BREAK then |text|
    else
      assert text == text[..|text| - 1] + [text[|text| - 1]];
      LineEnd(text[..|text| - 1])
  }

  /** The start of a text that is searched. */
  function Head(text: Text, links: nat, search: nat): (head: Text)
    ensures head <= text && |head| <= search
    ensures |text| <= search && links > 0 ==> head == text
    ensures links == 0 ==> head == []
    ensures head != text && head != [] ==> head[|head| - 1] == LINE_BREAK
    ensures |text| > search && links > 0 ==> LINE_BREAK !in text[|head|..search]
  {
    if links == 0 then []
    else if |text| <= search then text
    else
      assert text[..search][..LineEnd(text[..search])] == text[..LineEnd(text[..search])];
      assert text[..search][LineEnd(text[..search])..] == text[LineEnd(text[..search])..search];
      text[..LineEnd(text[..search])]
  }

  lemma TextGrows(pieces: seq<Piece>, piece: Piece)
    ensures TextOf(pieces + [piece]) == TextOf(pieces) + piece.text
    ensures LinksOf(pieces + [piece]) == LinksOf(pieces) + if piece.Link? then [piece] else []
  {
    assert (pieces + [piece])[..|pieces|] == pieces;
  }

  lemma InOrderWithin(head: Text, text: Text, from: nat, matches: seq<Match>)
    requires head <= text && InOrder(head, from, matches)
    ensures InOrder(text, from, matches)
    decreases |matches|
  {
    if matches != [] {
      var first := matches[0];
      assert head[first.index..first.lastIndex] == text[first.index..first.lastIndex];
      InOrderWithin(head, text, first.lastIndex, matches[1..]);
    }
  }

  /** One more link behind the text up to it. */
  lemma LinkGrows(pieces: seq<Piece>, text: Text, at: nat, match_: Match, address: Address)
    requires at <= match_.index <= match_.lastIndex <= |text| && TextOf(pieces) == text[..at]
    requires match_.raw == text[match_.index..match_.lastIndex]
    ensures var grown := pieces + [Plain(text[at..match_.index])] + [Link(match_.raw, address)];
      TextOf(grown) == text[..match_.lastIndex]
      && LinksOf(grown) == LinksOf(pieces) + [Link(match_.raw, address)]
  {
    var plain := Plain(text[at..match_.index]);
    TextGrows(pieces, plain);
    TextGrows(pieces + [plain], Link(match_.raw, address));
    assert text[..match_.lastIndex] == text[..at] + text[at..match_.index] + text[match_.index..match_.lastIndex];
    Sequences.Empty(LinksOf(pieces));
  }

  /** The links a message may still draw and the units it may still search. */
  class Budget {
    var links: nat
    var search: nat

    constructor ()
      ensures links == 2000 && search == 262_144
    {
      links, search := LINKS_MAX, SEARCH_MAX;
    }

    method Searched(text: Text) returns (head: Text)
      modifies this`search
      ensures head == Head(text, links, old(search)) && search == old(search) - |head|
    {
      if links == 0 {
        return [];
      }
      var fits := if |text| <= search then text else text[..search];
      head := fits;
      if |fits| != |text| {
        head := text[..LineEnd(fits)];
      }
      search := search - |head|;
    }

    /** The text with its addresses as links while the budget lasts: nothing of
        it lost, and the links the first ones the policy keeps. */
    method Linked(text: Text, find: Text -> seq<Match>, policy: Policy) returns (pieces: seq<Piece>)
      requires Finds(find)
      modifies this
      ensures TextOf(pieces) == text
      ensures LinksOf(pieces) == Chosen(find(Head(text, old(links), old(search))), old(links), policy)
      ensures links == old(links) - |LinksOf(pieces)|
      ensures search == old(search) - |Head(text, old(links), old(search))|
    {
      var head := Searched(text);
      InOrderWithin(head, text, 0, find(head));
      pieces, links := LinkMatches(text, find(head), links, policy);
    }
  }

  ghost predicate Finds(find: Text -> seq<Match>) {
    forall head :: InOrder(head, 0, find(head))
  }

  method LinkMatches(text: Text, matches: seq<Match>, links: nat, policy: Policy)
    returns (pieces: seq<Piece>, left: nat)
    requires InOrder(text, 0, matches)
    ensures TextOf(pieces) == text
    ensures LinksOf(pieces) == Chosen(matches, links, policy) && left + |LinksOf(pieces)| == links
  {
    pieces, left := [], links;
    var at := 0;
    NoPieces();
    Sequences.From0(matches);
    Sequences.Ends(text);
    Sequences.Empty(Chosen(matches, links, policy));
    hide TextOf, LinksOf, Chosen, InOrder;
    for i := 0 to |matches|
      invariant 0 <= at <= |text| && TextOf(pieces) == text[..at]
      invariant InOrder(text, at, matches[i..])
      invariant Chosen(matches, links, policy) == LinksOf(pieces) + Chosen(matches[i..], left, policy)
      invariant left + |LinksOf(pieces)| == links
    {
      Sequences.Front(matches, i);
      var found := matches[i];
      var address := if left > 0 then policy(found.url, found.raw) else None;
      ChosenNext(matches[i..], left, policy);
      InOrderNext(text, at, matches[i..]);
      if address.Some? {
        var link := Link(found.raw, address.value);
        LinkGrows(pieces, text, at, found, address.value);
        Sequences.Assoc(LinksOf(pieces), [link], Chosen(matches[i + 1..], left - 1, policy));
        left := left - 1;
        pieces := pieces + [Plain(text[at..found.index])] + [link];
        at := found.lastIndex;
      }
    }
    ChosenNone(left, policy);
    Sequences.Empty(LinksOf(pieces));
    TextGrows(pieces, Plain(text[at..]));
    Sequences.Split(text, at);
    pieces := pieces + [Plain(text[at..])];
  }

  lemma NoPieces()
    ensures TextOf([]) == [] && LinksOf([]) == []
  {
  }

  /** Behind a match the rest stays in order, whether it became a link or not. */
  lemma InOrderNext(text: Text, from: nat, matches: seq<Match>)
    requires matches != [] && InOrder(text, from, matches)
    ensures var first := matches[0];
      && from <= first.index <= first.lastIndex <= |text|
      && first.raw == text[first.index..first.lastIndex]
      && InOrder(text, first.lastIndex, matches[1..]) && InOrder(text, from, matches[1..])
  {
    if |matches| > 1 {
      assert matches[1..][1..] == matches[2..];
    }
  }

  lemma ChosenNone(links: nat, policy: Policy)
    ensures Chosen([], links, policy) == []
  {
  }

  lemma ChosenNext(matches: seq<Match>, links: nat, policy: Policy)
    requires matches != []
    ensures var address := if links > 0 then policy(matches[0].url, matches[0].raw) else None;
      Chosen(matches, links, policy) ==
        if address.None? then Chosen(matches[1..], links, policy)
        else [Link(matches[0].raw, address.value)] + Chosen(matches[1..], links - 1, policy)
  {
  }

  // ---------------------------------------------------------------------
  // A whole message
  // ---------------------------------------------------------------------

  function Lines(lines: seq<Text>): Text
    decreases |lines|
  {
    if lines == [] then []
    else if |lines| == 1 then lines[0]
    else lines[0] + [LINE_BREAK] + Lines(lines[1..])
  }

  /** The text of a run as its block draws it. */
  function Drawn(run: Run): Text {
    Lines(run.lines) + if run.lines != [] && run.lines[|run.lines| - 1] == [] then [LINE_BREAK] else []
  }

  /** A text cut at its line feeds. */
  function CutLines(text: Text): (lines: seq<Text>)
    ensures lines != []
    decreases |text|
  {
    if text == [] then [[]]
    else
      var rest := CutLines(text[1..]);
      if text[0] == '\n' as int then [[]] + rest else [[text[0]] + rest[0]] + rest[1..]
  }

  lemma {:induction false} CutPlain(line: Text, text: Text)
    requires '\n' as int !in line
    ensures CutLines(line + text) == [line + CutLines(text)[0]] + CutLines(text)[1..]
    decreases |line|
  {
    if line == [] {
      Sequences.Empty(text);
      Sequences.Empty(CutLines(text)[0]);
      Sequences.Cons(CutLines(text));
    } else {
      Sequences.Tail(line, text);
      CutPlain(line[1..], text);
      Sequences.Cons(line);
      Sequences.Assoc([line[0]], line[1..], CutLines(text)[0]);
      Sequences.Behind(line[1..] + CutLines(text)[0], CutLines(text)[1..]);
    }
  }

  lemma CutBehindBreak(line: Text, text: Text)
    requires '\n' as int !in line
    ensures CutLines(line + (['\n' as int] + text)) == [line] + CutLines(text)
  {
    CutPlain(line, ['\n' as int] + text);
    Sequences.Behind('\n' as int, text);
    Sequences.Behind([], CutLines(text));
    Sequences.Empty(line);
  }

  lemma CutOne(line: Text)
    requires '\n' as int !in line
    ensures CutLines(line) == [line]
  {
    CutPlain(line, []);
    Sequences.Empty(line);
    assert CutLines([]) == [[]];
  }

  lemma {:induction false} CutJoined(lines: seq<Text>, ending: Text)
    requires lines != [] && forall i :: 0 <= i < |lines| ==> '\n' as int !in lines[i]
    requires ending == [] || (ending == ['\n' as int])
    ensures CutLines(Lines(lines) + ending) == lines + if ending == [] then [] else [[]]
    decreases |lines|
  {
    if |lines| == 1 {
      assert lines == [lines[0]];
      if ending == [] {
        Sequences.Empty(lines[0]);
        CutOne(lines[0]);
      } else {
        Sequences.Empty(['\n' as int]);
        CutBehindBreak(lines[0], []);
        assert CutLines([]) == [[]];
      }
    } else {
      CutJoined(lines[1..], ending);
      Sequences.Assoc(lines[0], ['\n' as int], Lines(lines[1..]));
      Sequences.Assoc(['\n' as int], Lines(lines[1..]), ending);
      Sequences.Assoc(lines[0], ['\n' as int] + Lines(lines[1..]), ending);
      CutBehindBreak(lines[0], Lines(lines[1..]) + ending);
      Sequences.Cons(lines);
      Sequences.Assoc([lines[0]], lines[1..], if ending == [] then [] else [[]]);
    }
  }

  /** What a block draws is its lines, one behind the other, and one more line
      feed where the last is empty, which a block would not show otherwise. */
  lemma DrawsItsLines(run: Run)
    requires run.lines != [] && forall i :: 0 <= i < |run.lines| ==> '\n' as int !in run.lines[i]
    ensures CutLines(Drawn(run)) == run.lines + if run.lines[|run.lines| - 1] == [] then [[]] else []
  {
    CutJoined(run.lines, if run.lines[|run.lines| - 1] == [] then ['\n' as int] else []);
  }

  function LinkCount(blocks: seq<seq<Piece>>): nat
    decreases |blocks|
  {
    if blocks == [] then 0 else LinkCount(blocks[..|blocks| - 1]) + |LinksOf(blocks[|blocks| - 1])|
  }

  /** What the finder was given for each run of a message, in order. */
  function HeadLengths(runs: seq<Run>, links: nat, search: nat, find: Text -> seq<Match>, policy: Policy): (total: nat)
    ensures total <= search
    decreases |runs|
  {
    if runs == [] then 0
    else
      var head := Head(Drawn(runs[0]), links, search);
      |head| + HeadLengths(runs[1..], links - |Chosen(find(head), links, policy)|, search - |head|, find, policy)
  }

  /** Drawn in their order, the runs of a message together stay within the
      links and the searched units of one budget, and lose nothing. */
  method DrawRuns(runs: seq<Run>, find: Text -> seq<Match>, policy: Policy)
    returns (blocks: seq<seq<Piece>>, searched: nat)
    requires Finds(find)
    ensures |blocks| == |runs| && forall i :: 0 <= i < |runs| ==> TextOf(blocks[i]) == Drawn(runs[i])
    ensures LinkCount(blocks) <= 2000
    ensures searched == HeadLengths(runs, 2000, 262_144, find, policy) <= 262_144
  {
    var budget := new Budget();
    blocks := [];
    Sequences.From0(runs);
    NoBlocks();
    hide TextOf, LinksOf, Chosen, Drawn, HeadLengths, LinkCount, Finds, Head;
    for i := 0 to |runs|
      invariant |blocks| == i && forall k :: 0 <= k < i ==> TextOf(blocks[k]) == Drawn(runs[k])
      invariant LinkCount(blocks) + budget.links == LINKS_MAX && budget.search <= SEARCH_MAX
      invariant HeadLengths(runs, LINKS_MAX, SEARCH_MAX, find, policy)
        == (SEARCH_MAX - budget.search) + HeadLengths(runs[i..], budget.links, budget.search, find, policy)
    {
      Sequences.Front(runs, i);
      HeadLengthsNext(runs[i..], budget.links, budget.search, find, policy);
      var pieces := budget.Linked(Drawn(runs[i]), find, policy);
      CountGrows(blocks, pieces);
      blocks := blocks + [pieces];
    }
    HeadLengthsNone(budget.links, budget.search, find, policy);
    searched := SEARCH_MAX - budget.search;
  }

  lemma NoBlocks()
    ensures LinkCount([]) == 0
  {
  }

  lemma HeadLengthsNone(links: nat, search: nat, find: Text -> seq<Match>, policy: Policy)
    ensures HeadLengths([], links, search, find, policy) == 0
  {
  }

  lemma HeadLengthsNext(runs: seq<Run>, links: nat, search: nat, find: Text -> seq<Match>, policy: Policy)
    requires runs != []
    ensures var head := Head(Drawn(runs[0]), links, search);
      HeadLengths(runs, links, search, find, policy)
      == |head| + HeadLengths(runs[1..], links - |Chosen(find(head), links, policy)|, search - |head|, find, policy)
  {
  }

  lemma CountGrows(blocks: seq<seq<Piece>>, pieces: seq<Piece>)
    ensures LinkCount(blocks + [pieces]) == LinkCount(blocks) + |LinksOf(pieces)|
  {
    assert (blocks + [pieces])[..|blocks|] == blocks;
  }
}

/** The transfer encoding of a part undone window by window. What the two
    library decoders make of bytes is a parameter, with the one law the cuts
    rest on: base64 decodes quartet by quartet, quoted-printable line by line. */
module BlobDecode {
  import Sequences

  type Byte = b: int | 0 <= b < 256

  const PAD: Byte := 61
  const QUARTET := 4
  const ESCAPE_BYTES := 2
  const LONG_LINE := 1000
  const EQUALS: seq<Byte> := [61, 51, 68]
  const LF: Byte := 10
  const CR: Byte := 13
  const SPACE: Byte := 32
  const TAB: Byte := 9

  datatype Encoding =
    | Identity
    | Base64(library: seq<Byte> -> seq<Byte>)
    | QuotedPrintable(library: seq<Byte> -> seq<Byte>)

  // ---------------------------------------------------------------------
  // Base64
  // ---------------------------------------------------------------------

  predicate Symbol(byte: Byte) {
    || 48 <= byte <= 57
    || 65 <= byte <= 90
    || 97 <= byte <= 122
    || byte == 43
    || byte == 47
  }

  /** The symbols and pads among some bytes. */
  function Symbols(bytes: seq<Byte>): seq<Byte>
    decreases |bytes|
  {
    if bytes == [] then []
    else if Symbol(bytes[0]) || bytes[0] == PAD then [bytes[0]] + Symbols(bytes[1..])
    else Symbols(bytes[1..])
  }

  /** The symbols behind the last whole quartet; a pad ends one early. */
  function Pending(open: seq<Byte>, symbols: seq<Byte>): (pending: seq<Byte>)
    ensures |pending| <= |open| + |symbols|
    decreases |symbols|
  {
    if symbols == [] then open
    else
      var grown := open + [symbols[0]];
      Pending(if symbols[0] == PAD || |grown| == QUARTET then [] else grown, symbols[1..])
  }

  predicate WholeQuartets(symbols: seq<Byte>) {
    Pending([], symbols) == []
  }

  function QuartetsEnd(symbols: seq<Byte>): (end: nat)
    ensures end <= |symbols|
  {
    |symbols| - |Pending([], symbols)|
  }

  lemma {:induction false} SymbolsSplit(a: seq<Byte>, b: seq<Byte>)
    ensures Symbols(a + b) == Symbols(a) + Symbols(b)
    decreases |a|
  {
    if a == [] {
      Sequences.Empty(b);
    } else {
      Sequences.Tail(a, b);
      SymbolsSplit(a[1..], b);
      if Symbol(a[0]) || a[0] == PAD {
        Sequences.Assoc([a[0]], Symbols(a[1..]), Symbols(b));
      }
    }
  }

  lemma {:induction false} PendingSplit(open: seq<Byte>, a: seq<Byte>, b: seq<Byte>)
    ensures Pending(open, a + b) == Pending(Pending(open, a), b)
    decreases |a|
  {
    if a == [] {
      Sequences.Empty(b);
    } else {
      Sequences.Tail(a, b);
      var grown := open + [a[0]];
      PendingSplit(if a[0] == PAD || |grown| == QUARTET then [] else grown, a[1..], b);
    }
  }

  /** The end of the last whole quartet. */
  method Quartets(symbols: seq<Byte>) returns (end: nat)
    ensures end <= |symbols|
    ensures WholeQuartets(symbols[..end])
    ensures Pending([], symbols) == symbols[end..] && |symbols| - end < QUARTET
    ensures end == QuartetsEnd(symbols)
    ensures PAD !in symbols ==> end == |symbols| / 4 * 4
  {
    var pending := 0;
    end := 0;
    for index := 0 to |symbols|
      invariant end <= index && pending == index - end < QUARTET
      invariant WholeQuartets(symbols[..end])
      invariant Pending([], symbols[..index]) == symbols[end..index]
      invariant PAD !in symbols ==> end % 4 == 0
    {
      PendingNext(symbols, end, index);
      pending := if symbols[index] == PAD then 0 else (pending + 1) % QUARTET;
      if pending == 0 {
        end := index + 1;
      }
    }
    Sequences.Ends(symbols);
  }

  lemma PendingNext(symbols: seq<Byte>, end: nat, index: nat)
    requires end <= index < |symbols| && Pending([], symbols[..index]) == symbols[end..index]
    ensures Pending([], symbols[..index + 1])
      == if symbols[index] == PAD || index - end + 1 == QUARTET then [] else symbols[end..index + 1]
  {
    Sequences.Grow(symbols, index);
    PendingSplit([], symbols[..index], [symbols[index]]);
    Sequences.Extend(symbols, end, index);
  }

  // ---------------------------------------------------------------------
  // Quoted-printable
  // ---------------------------------------------------------------------

  predicate Hex(byte: Byte) {
    48 <= byte <= 57 || 65 <= byte <= 70 || 97 <= byte <= 102
  }

  function Blank(rest: seq<Byte>): (count: nat)
    ensures count <= |rest|
    decreases |rest|
  {
    if rest != [] && (rest[0] == SPACE || rest[0] == TAB || rest[0] == CR) then 1 + Blank(rest[1..]) else 0
  }

  /** Whether what follows an equals sign makes it an escape or a soft break. */
  predicate Opens(rest: seq<Byte>) {
    || (|rest| >= 2 && Hex(rest[0]) && Hex(rest[1]))
    || (Blank(rest) < |rest| && rest[Blank(rest)] == LF)
  }

  function MendedOne(before: int, byte: Byte, rest: seq<Byte>): seq<Byte> {
    if byte == PAD && !Opens(rest) then EQUALS
    else if byte == LF && before != CR then [CR, LF]
    else [byte]
  }

  /** The bytes as the decoder reads them without loss. */
  function Mended(before: int, bytes: seq<Byte>): seq<Byte>
    decreases |bytes|
  {
    if bytes == [] then [] else MendedOne(before, bytes[0], bytes[1..]) + Mended(bytes[0], bytes[1..])
  }

  predicate EndsLine(bytes: seq<Byte>) {
    bytes == [] || bytes[|bytes| - 1] == LF
  }

  lemma {:induction false} BlankWithin(a: seq<Byte>, b: seq<Byte>)
    requires a != [] && EndsLine(a)
    ensures Blank(a + b) == Blank(a) < |a| && (a + b)[Blank(a)] == a[Blank(a)]
    decreases |a|
  {
    Sequences.Tail(a, b);
    if a[0] == SPACE || a[0] == TAB || a[0] == CR {
      assert a[1..] != [] && EndsLine(a[1..]);
      BlankWithin(a[1..], b);
    }
  }

  /** No equals sign looks past the break that ends its line. */
  lemma OpensWithin(a: seq<Byte>, b: seq<Byte>)
    requires a != [] && EndsLine(a)
    ensures Opens(a + b) == Opens(a)
  {
    BlankWithin(a, b);
    if |a| == 1 {
      assert (a + b)[0] == LF;
    } else {
      assert (a + b)[0] == a[0] && (a + b)[1] == a[1];
    }
  }

  lemma BeforeIsFree(bytes: seq<Byte>, before: int)
    requires before != CR
    ensures Mended(before, bytes) == Mended(0, bytes)
  {
  }

  /** Mending is a matter of whole lines. */
  lemma {:induction false} MendedSplit(before: int, a: seq<Byte>, b: seq<Byte>)
    requires a != [] && EndsLine(a)
    ensures Mended(before, a + b) == Mended(before, a) + Mended(0, b)
    ensures Mended(before, a) != [] && EndsLine(Mended(before, a))
    decreases |a|
  {
    Sequences.Tail(a, b);
    var rest := a[1..];
    if rest == [] {
      Sequences.Empty(b);
      Sequences.Empty(MendedOne(before, LF, []));
      BeforeIsFree(b, LF);
      assert MendedOne(before, LF, rest + b) == MendedOne(before, LF, rest);
    } else {
      assert EndsLine(rest);
      OpensWithin(rest, b);
      MendedSplit(a[0], rest, b);
      Sequences.Assoc(MendedOne(before, a[0], rest), Mended(a[0], rest), Mended(0, b));
    }
  }

  method Mend(bytes: seq<Byte>) returns (mended: seq<Byte>)
    ensures mended == Mended(0, bytes)
  {
    mended := [];
    var before := 0;
    Sequences.Empty(Mended(0, bytes));
    for at := 0 to |bytes|
      invariant Mended(0, bytes) == mended + Mended(before, bytes[at..])
    {
      Sequences.Front(bytes, at);
      var byte, rest := bytes[at], bytes[at + 1..];
      Sequences.Assoc(mended, MendedOne(before, byte, rest), Mended(byte, rest));
      if byte == PAD && !Opens(rest) {
        mended := mended + EQUALS;
      } else if byte == LF && before != CR {
        mended := mended + [CR, LF];
      } else {
        mended := mended + [byte];
      }
      before := byte;
    }
    Sequences.Empty(mended);
  }

  /** The end of the last line, 0 where none ended. */
  function LastBreak(bytes: seq<Byte>): (end: nat)
    ensures end <= |bytes| && LF !in bytes[end..]
    ensures if LF in bytes then end > 0 && bytes[end - 1] == LF else end == 0
    decreases |bytes|
  {
    if bytes == [] then 0
    else if bytes[|bytes| - 1] == LF then |bytes|
    else
      assert bytes == bytes[..|bytes| - 1] + [bytes[|bytes| - 1]];
      LastBreak(bytes[..|bytes| - 1])
  }

  /** The first byte from an index on that a cut might split from the next. */
  function FirstSplit(bytes: seq<Byte>, from: nat): (cut: nat)
    requires from <= |bytes|
    ensures from <= cut <= |bytes| && PAD !in bytes[from..cut] && CR !in bytes[from..cut]
    ensures cut < |bytes| ==> bytes[cut] == PAD || bytes[cut] == CR
    decreases |bytes| - from
  {
    if from == |bytes| || bytes[from] == PAD || bytes[from] == CR then from
    else
      var cut := FirstSplit(bytes, from + 1);
      assert bytes[from..cut] == [bytes[from]] + bytes[from + 1..cut];
      cut
  }

  /** Where the bytes may be cut: behind their last line break; a line past
      the longest ahead of what the cut would split. */
  function LinesEnd(bytes: seq<Byte>): (end: nat)
    ensures end <= |bytes|
  {
    if LF in bytes then LastBreak(bytes)
    else if |bytes| < LONG_LINE then 0
    else FirstSplit(bytes, |bytes| - ESCAPE_BYTES)
  }

  method SplitAt(bytes: seq<Byte>, from: nat) returns (cut: nat)
    requires from <= |bytes|
    ensures cut == FirstSplit(bytes, from)
  {
    cut := from;
    while cut < |bytes| && bytes[cut] != PAD && bytes[cut] != CR
      invariant from <= cut <= |bytes|
      invariant FirstSplit(bytes, from) == FirstSplit(bytes, cut)
    {
      cut := cut + 1;
    }
  }

  method Lines(bytes: seq<Byte>) returns (cut: nat)
    ensures cut == LinesEnd(bytes)
    ensures LF in bytes ==> cut > 0 && bytes[cut - 1] == LF && LF !in bytes[cut..]
    ensures LF !in bytes && |bytes| < 1000 ==> cut == 0
    ensures LF !in bytes && |bytes| >= 1000 ==>
      |bytes| - 2 <= cut && (cut < |bytes| ==> bytes[cut] == PAD || bytes[cut] == CR)
      && PAD !in bytes[|bytes| - 2..cut] && CR !in bytes[|bytes| - 2..cut]
  {
    cut := |bytes|;
    Sequences.Ends(bytes);
    while cut > 0 && bytes[cut - 1] != LF
      invariant cut <= |bytes| && LF !in bytes[cut..]
      invariant LastBreak(bytes) == LastBreak(bytes[..cut])
    {
      Sequences.Cons(bytes[cut - 1..]);
      Sequences.Grow(bytes, cut - 1);
      cut := cut - 1;
    }
    if cut > 0 {
      return;
    }
    Sequences.From0(bytes);
    if |bytes| < LONG_LINE {
      return;
    }
    cut := SplitAt(bytes, |bytes| - ESCAPE_BYTES);
  }

  // What the encodings are read as, byte by byte.

  /** The alphabet of section 6.8 of RFC 2045, the pad with it. */
  predicate Alphabet(byte: Byte) {
    || 'A' as int <= byte <= 'Z' as int
    || 'a' as int <= byte <= 'z' as int
    || '0' as int <= byte <= '9' as int
    || byte == '+' as int || byte == '/' as int || byte == '=' as int
  }

  /** Of a body of base64 the alphabet is kept and what stands between its
      symbols is read past. */
  lemma {:induction false} AlphabetKept(bytes: seq<Byte>, between: seq<Byte>, more: seq<Byte>)
    requires forall i :: 0 <= i < |bytes| ==> Alphabet(bytes[i])
    requires forall i :: 0 <= i < |between| ==> !Alphabet(between[i])
    ensures Symbols(bytes + (between + more)) == bytes + Symbols(more)
    decreases |bytes| + |between|
  {
    if bytes != [] {
      Sequences.Tail(bytes, between + more);
      AlphabetKept(bytes[1..], between, more);
      Sequences.Cons(bytes);
      Sequences.Assoc([bytes[0]], bytes[1..], Symbols(more));
    } else {
      Sequences.Empty(between + more);
      Sequences.Empty(Symbols(more));
      if between == [] {
        Sequences.Empty(more);
      } else {
        Sequences.Tail(between, more);
        AlphabetKept([], between[1..], more);
        Sequences.Empty(between[1..] + more);
      }
    }
  }

  predicate HexDigit(byte: Byte) {
    || '0' as int <= byte <= '9' as int
    || 'A' as int <= byte <= 'F' as int
    || 'a' as int <= byte <= 'f' as int
  }

  /** Two hex digits, or white space up to a line feed: what follows an equals
      sign by section 6.7 of RFC 2045. */
  ghost predicate Escapes(rest: seq<Byte>) {
    || (|rest| >= 2 && HexDigit(rest[0]) && HexDigit(rest[1]))
    || exists k :: 0 <= k < |rest| && BreaksAt(rest, k)
  }

  predicate BreaksAt(rest: seq<Byte>, k: nat)
    requires k < |rest|
  {
    rest[k] == 10 && forall i :: 0 <= i < k ==> rest[i] == 32 || rest[i] == 9 || rest[i] == 13
  }

  lemma {:induction false} BlankEnds(rest: seq<Byte>)
    ensures (Blank(rest) < |rest| && rest[Blank(rest)] == LF) <==> exists k :: 0 <= k < |rest| && BreaksAt(rest, k)
    decreases |rest|
  {
    if rest != [] {
      var tail := rest[1..];
      BlankEnds(tail);
      if rest[0] == LF {
        assert BreaksAt(rest, 0);
      } else if rest[0] == SPACE || rest[0] == TAB || rest[0] == CR {
        if k :| 0 <= k < |tail| && BreaksAt(tail, k) {
          assert BreaksAt(rest, k + 1);
        }
        if k :| 0 <= k < |rest| && BreaksAt(rest, k) {
          assert BreaksAt(tail, k - 1);
        }
      }
    }
  }

  /** Bytes with no equals sign and no line feed stand as they are. */
  lemma {:induction false} MendedPlain(before: int, a: seq<Byte>, more: seq<Byte>)
    requires '=' as int !in a && '\n' as int !in a
    ensures Mended(before, a + more) == a + Mended(if a == [] then before else a[|a| - 1], more)
    decreases |a|
  {
    if a == [] {
      Sequences.Empty(more);
      Sequences.Empty(Mended(before, more));
    } else {
      Sequences.Tail(a, more);
      MendedPlain(a[0], a[1..], more);
      Sequences.Cons(a);
      Sequences.Assoc([a[0]], a[1..], Mended(a[|a| - 1], more));
    }
  }

  /** An equals sign that opens an escape or a soft break stands; any other is
      written as its own escape. */
  lemma MendedEquals(before: int, a: seq<Byte>, rest: seq<Byte>)
    requires '=' as int !in a && '\n' as int !in a
    ensures Mended(before, a + (['=' as int] + rest)) == a
      + ((if Escapes(rest) then ['=' as int] else ['=' as int, '3' as int, 'D' as int]) + Mended('=' as int, rest))
  {
    MendedPlain(before, a, ['=' as int] + rest);
    Sequences.Behind('=' as int, rest);
    BlankEnds(rest);
    hide Blank;
  }

  /** A line feed ends its line in CRLF, whether a CR stands ahead of it or not. */
  lemma MendedBreak(before: int, a: seq<Byte>, rest: seq<Byte>)
    requires '=' as int !in a && '\n' as int !in a
    ensures var last := if a == [] then before else a[|a| - 1];
      Mended(before, a + (['\n' as int] + rest)) == a
      + ((if last == '\r' as int then ['\n' as int] else ['\r' as int, '\n' as int]) + Mended('\n' as int, rest))
  {
    MendedPlain(before, a, ['\n' as int] + rest);
    Sequences.Behind('\n' as int, rest);
  }

  // ---------------------------------------------------------------------
  // The decoder
  // ---------------------------------------------------------------------

  /** What the libraries are taken for: a cut between two quartets, or behind
      a line break, changes nothing. */
  ghost predicate Lawful(encoding: Encoding) {
    match encoding
    case Identity => true
    case Base64(library) =>
      forall a, b :: WholeQuartets(a) ==> library(a + b) == library(a) + library(b)
    case QuotedPrintable(library) =>
      forall a, b :: EndsLine(a) ==> library(a + b) == library(a) + library(b)
  }

  /** What a body decodes to in one piece. */
  function Whole(encoding: Encoding, bytes: seq<Byte>): seq<Byte> {
    match encoding
    case Identity => bytes
    case Base64(library) => library(Symbols(bytes))
    case QuotedPrintable(library) => library(Mended(0, bytes))
  }

  /** What is still to come with these bytes carried and those to be read. */
  function Rest(encoding: Encoding, carried: seq<Byte>, bytes: seq<Byte>): seq<Byte> {
    match encoding
    case Identity => bytes
    case Base64(library) => library(carried + Symbols(bytes))
    case QuotedPrintable(library) => library(Mended(0, carried + bytes))
  }

  /** No line of the bytes is long, with so many bytes of one open already. */
  predicate ShortLines(open: nat, bytes: seq<Byte>)
    decreases |bytes|
  {
    bytes == []
    || (if bytes[0] == LF then ShortLines(0, bytes[1..])
        else open + 1 < LONG_LINE && ShortLines(open + 1, bytes[1..]))
  }

  predicate BreakWithin(bytes: seq<Byte>, from: nat, to: nat)
    requires from <= to <= |bytes|
  {
    exists k :: from <= k < to && bytes[k] == '\n' as int
  }

  /** Every thousand bytes hold a line feed, those of the line open included. */
  ghost predicate LinesWithin(open: nat, bytes: seq<Byte>) {
    && (forall from: nat, to: nat :: to == from + 1000 && to <= |bytes| ==> BreakWithin(bytes, from, to))
    && (forall n: nat :: 0 < n <= |bytes| && open + n >= 1000 ==> BreakWithin(bytes, 0, n))
  }

  lemma BreakShift(bytes: seq<Byte>, from: nat, to: nat)
    requires bytes != [] && from <= to < |bytes|
    ensures BreakWithin(bytes[1..], from, to) <==> BreakWithin(bytes, from + 1, to + 1)
  {
    if k :| from <= k < to && bytes[1..][k] == 10 {
      assert bytes[k + 1] == 10;
    }
    if k :| from + 1 <= k < to + 1 && bytes[k] == 10 {
      assert bytes[1..][k - 1] == 10;
    }
  }

  lemma {:induction false} ShortLinesAre(open: nat, bytes: seq<Byte>)
    ensures ShortLines(open, bytes) <==> LinesWithin(open, bytes)
    decreases |bytes|
  {
    hide LinesWithin;
    if bytes == [] {
      NoLines(open);
    } else if bytes[0] == LF {
      ShortLinesAre(0, bytes[1..]);
      LinesPast(open, bytes);
    } else {
      ShortLinesAre(open + 1, bytes[1..]);
      LinesOn(open, bytes);
    }
  }

  lemma NoLines(open: nat)
    ensures LinesWithin(open, [])
  {
  }

  lemma LinesPast(open: nat, bytes: seq<Byte>)
    requires bytes != [] && bytes[0] == 10
    ensures LinesWithin(open, bytes) <==> LinesWithin(0, bytes[1..])
  {
    var rest := bytes[1..];
    if LinesWithin(0, rest) {
      forall from: nat, to: nat | to == from + 1000 && to <= |bytes| ensures BreakWithin(bytes, from, to) {
        if from > 0 {
          BreakShift(bytes, from - 1, to - 1);
        }
      }
    }
    if LinesWithin(open, bytes) {
      forall from: nat, to: nat | to == from + 1000 && to <= |rest| ensures BreakWithin(rest, from, to) {
        BreakShift(bytes, from, to);
      }
      forall n: nat | 0 < n <= |rest| && n >= 1000 ensures BreakWithin(rest, 0, n) {
        BreakShift(bytes, 0, 1000);
        assert BreakWithin(bytes, 1, 1001);
        assert BreakWithin(rest, 0, 1000);
      }
    }
  }

  lemma LinesOn(open: nat, bytes: seq<Byte>)
    requires bytes != [] && bytes[0] != 10
    ensures LinesWithin(open, bytes) <==> open + 1 < 1000 && LinesWithin(open + 1, bytes[1..])
  {
    var rest := bytes[1..];
    if LinesWithin(open, bytes) {
      assert !BreakWithin(bytes, 0, 1);
      forall from: nat, to: nat | to == from + 1000 && to <= |rest| ensures BreakWithin(rest, from, to) {
        BreakShift(bytes, from, to);
      }
      forall n: nat | 0 < n <= |rest| && open + 1 + n >= 1000 ensures BreakWithin(rest, 0, n) {
        assert BreakWithin(bytes, 0, n + 1);
        assert BreakWithin(bytes, 1, n + 1);
        BreakShift(bytes, 0, n);
      }
    }
    if open + 1 < 1000 && LinesWithin(open + 1, rest) {
      forall from: nat, to: nat | to == from + 1000 && to <= |bytes| ensures BreakWithin(bytes, from, to) {
        if from == 0 {
          BreakShift(bytes, 0, 999);
          assert BreakWithin(rest, 0, 999);
          assert BreakWithin(bytes, 1, 1000);
        } else {
          BreakShift(bytes, from - 1, to - 1);
        }
      }
      forall n: nat | 0 < n <= |bytes| && open + n >= 1000 ensures BreakWithin(bytes, 0, n) {
        BreakShift(bytes, 0, n - 1);
        assert BreakWithin(rest, 0, n - 1);
        assert BreakWithin(bytes, 1, n);
      }
    }
  }

  /** A body has only short lines exactly when no thousand of its bytes in a row
      are without a line feed. */
  lemma ShortMeansThousand(bytes: seq<Byte>)
    ensures ShortLines(0, bytes)
      <==> forall from: nat, to: nat :: to == from + 1000 && to <= |bytes| ==> BreakWithin(bytes, from, to)
  {
    ShortLinesAre(0, bytes);
    if forall from: nat, to: nat :: to == from + 1000 && to <= |bytes| ==> BreakWithin(bytes, from, to) {
      forall n: nat | 0 < n <= |bytes| && n >= 1000 ensures BreakWithin(bytes, 0, n) {
        assert BreakWithin(bytes, 0, 1000);
      }
    }
  }

  /** What a decoder may carry ahead of the bytes still to come. */
  predicate Carries(encoding: Encoding, carried: seq<Byte>, bytes: seq<Byte>) {
    match encoding
    case Identity => carried == []
    case Base64(_) => Pending([], carried) == carried && |carried| < QUARTET
    case QuotedPrintable(_) => LF !in carried && |carried| < LONG_LINE && ShortLines(|carried|, bytes)
  }

  lemma {:induction false} ShortUpTo(open: nat, a: seq<Byte>, b: seq<Byte>)
    requires LF !in a && ShortLines(open, a + b)
    ensures a != [] ==> open + |a| < LONG_LINE
    ensures ShortLines(open + |a|, b)
    decreases |a|
  {
    if a == [] {
      Sequences.Empty(b);
    } else {
      Sequences.Tail(a, b);
      ShortUpTo(open + 1, a[1..], b);
    }
  }

  lemma {:induction false} ShortPast(open: nat, a: seq<Byte>, b: seq<Byte>)
    requires a != [] && EndsLine(a) && ShortLines(open, a + b)
    ensures ShortLines(0, b)
    decreases |a|
  {
    Sequences.Tail(a, b);
    if |a| == 1 {
      Sequences.Empty(b);
      assert a[1..] == [];
    } else {
      assert EndsLine(a[1..]);
      ShortPast(if a[0] == LF then 0 else open + 1, a[1..], b);
    }
  }

  /** What a decoder carries on and the content it gives for a window. */
  function Pushed(encoding: Encoding, carried: seq<Byte>, window: seq<Byte>, last: bool): (seq<Byte>, seq<Byte>) {
    match encoding
    case Identity => (carried, window)
    case Base64(library) =>
      var grown := carried + Symbols(window);
      var cut := if last then |grown| else QuartetsEnd(grown);
      (grown[cut..], library(grown[..cut]))
    case QuotedPrintable(library) =>
      var grown := carried + window;
      var cut := if last then |grown| else LinesEnd(grown);
      (grown[cut..], library(Mended(0, grown[..cut])))
  }

  class Decoder {
    const encoding: Encoding
    var carried: seq<Byte>

    constructor (encoding: Encoding)
      ensures this.encoding == encoding && carried == []
    {
      this.encoding, carried := encoding, [];
    }

    method Push(window: seq<Byte>, last: bool) returns (content: seq<Byte>)
      modifies this
      ensures (carried, content) == Pushed(encoding, old(carried), window, last)
    {
      match encoding {
        case Identity =>
          content := window;
        case Base64(library) =>
          carried := carried + Symbols(window);
          var cut := |carried|;
          if !last {
            cut := Quartets(carried);
          }
          content := library(carried[..cut]);
          carried := carried[cut..];
        case QuotedPrintable(library) =>
          carried := carried + window;
          var cut := |carried|;
          if !last {
            cut := Lines(carried);
          }
          var mended := Mend(carried[..cut]);
          content := library(mended);
          carried := carried[cut..];
      }
    }
  }

  /** The edge of a window changes nothing: what a window gives and what is
      still to come of the rest is what was to come of both. */
  lemma PushGoesOn(encoding: Encoding, carried: seq<Byte>, window: seq<Byte>, more: seq<Byte>)
    requires Lawful(encoding) && Carries(encoding, carried, window + more)
    ensures var (left, content) := Pushed(encoding, carried, window, false);
      Carries(encoding, left, more)
      && content + Rest(encoding, left, more) == Rest(encoding, carried, window + more)
  {
    match encoding {
      case Identity =>
      case Base64(library) =>
        SymbolsSplit(window, more);
        Sequences.Assoc(carried, Symbols(window), Symbols(more));
        var grown := carried + Symbols(window);
        QuartetsCut(grown);
        CutQuartets(library, grown, QuartetsEnd(grown), Symbols(more));
      case QuotedPrintable(_) =>
        CutLines(encoding, carried, window, more, LinesEnd(carried + window));
    }
  }

  /** The last window gives all that was to come. */
  lemma PushEnds(encoding: Encoding, carried: seq<Byte>, window: seq<Byte>)
    ensures Pushed(encoding, carried, window, true).1 == Rest(encoding, carried, window)
  {
    match encoding {
      case Identity =>
      case Base64(_) => Sequences.Ends(carried + Symbols(window));
      case QuotedPrintable(_) => Sequences.Ends(carried + window);
    }
  }

  /** A body of any windows, none but the last of them short: the contents in
      order are what the body decodes to in one piece. */
  function Streamed(encoding: Encoding, carried: seq<Byte>, windows: seq<seq<Byte>>): seq<Byte>
    decreases |windows|
  {
    if windows == [] then []
    else
      var (left, content) := Pushed(encoding, carried, windows[0], |windows| == 1);
      content + Streamed(encoding, left, windows[1..])
  }

  function Joined(windows: seq<seq<Byte>>): seq<Byte>
    decreases |windows|
  {
    if windows == [] then [] else windows[0] + Joined(windows[1..])
  }

  lemma {:induction false} StreamedFrom(encoding: Encoding, carried: seq<Byte>, windows: seq<seq<Byte>>)
    requires windows != [] && Lawful(encoding) && Carries(encoding, carried, Joined(windows))
    ensures Streamed(encoding, carried, windows) == Rest(encoding, carried, Joined(windows))
    decreases |windows|
  {
    hide Pushed, Rest, Carries;
    if |windows| == 1 {
      PushEnds(encoding, carried, windows[0]);
      Sequences.Empty(windows[0]);
      Sequences.Empty(Pushed(encoding, carried, windows[0], true).1);
    } else {
      PushGoesOn(encoding, carried, windows[0], Joined(windows[1..]));
      StreamedFrom(encoding, Pushed(encoding, carried, windows[0], false).0, windows[1..]);
    }
  }

  /** Decoding in any windows is decoding in one piece; for quoted-printable,
      of a body without a long line. */
  lemma StreamedIsWhole(encoding: Encoding, windows: seq<seq<Byte>>)
    requires windows != [] && Lawful(encoding)
    requires encoding.QuotedPrintable? ==> ShortLines(0, Joined(windows))
    ensures Streamed(encoding, [], windows) == Whole(encoding, Joined(windows))
  {
    StreamedFrom(encoding, [], windows);
    RestOfAll(encoding, Joined(windows));
  }

  lemma RestOfAll(encoding: Encoding, bytes: seq<Byte>)
    ensures Rest(encoding, [], bytes) == Whole(encoding, bytes)
  {
    Sequences.Empty(bytes);
    Sequences.Empty(Symbols(bytes));
  }

  lemma {:induction false} QuartetsUpTo(symbols: seq<Byte>, index: nat)
    requires index <= |symbols|
    ensures var pending := Pending([], symbols[..index]);
      && |pending| < QUARTET && |pending| <= index
      && pending == symbols[index - |pending|..index]
      && WholeQuartets(symbols[..index - |pending|])
    decreases index
  {
    if index > 0 {
      QuartetsUpTo(symbols, index - 1);
      PendingNext(symbols, index - 1 - |Pending([], symbols[..index - 1])|, index - 1);
    }
  }

  /** What stands before the last quartet's end is whole quartets. */
  lemma QuartetsCut(symbols: seq<Byte>)
    ensures WholeQuartets(symbols[..QuartetsEnd(symbols)])
    ensures Pending([], symbols) == symbols[QuartetsEnd(symbols)..]
    ensures |Pending([], symbols)| < QUARTET
  {
    QuartetsUpTo(symbols, |symbols|);
    Sequences.Ends(symbols);
  }

  lemma CutQuartets(library: seq<Byte> -> seq<Byte>, carried: seq<Byte>, cut: nat, more: seq<Byte>)
    requires Lawful(Base64(library)) && cut <= |carried| && WholeQuartets(carried[..cut])
    requires Pending([], carried) == carried[cut..]
    ensures library(carried[..cut]) + library(carried[cut..] + more) == library(carried + more)
    ensures Pending([], carried[cut..]) == carried[cut..]
  {
    Sequences.Split(carried, cut);
    PendingSplit([], carried[..cut], carried[cut..]);
    Sequences.Assoc(carried[..cut], carried[cut..], more);
  }

  lemma LineFree(was: seq<Byte>, window: seq<Byte>)
    requires LF !in was
    ensures LF in was + window <==> LF in window
  {
    assert forall byte :: byte in was + window <==> byte in was || byte in window;
  }

  /** The cut falls into the window, behind its last break. */
  lemma CutAt(was: seq<Byte>, window: seq<Byte>, cut: nat)
    requires LF !in was && 0 < cut <= |was + window| && (was + window)[cut - 1] == LF
    ensures |was| < cut
    ensures var head := window[..cut - |was|];
      EndsLine(head) && head != [] && window == head + (was + window)[cut..]
  {
    var carried := was + window;
    assert forall i :: 0 <= i < |was| ==> carried[i] in was;
    var head := window[..cut - |was|];
    assert head[|head| - 1] == window[cut - |was| - 1] == carried[cut - 1];
    assert carried[cut..] == window[cut - |was|..];
    Sequences.Split(window, cut - |was|);
  }

  lemma CutBreak(library: seq<Byte> -> seq<Byte>, first: seq<Byte>, rest: seq<Byte>, more: seq<Byte>)
    requires Lawful(QuotedPrintable(library)) && first != [] && EndsLine(first)
    ensures library(Mended(0, first)) + library(Mended(0, rest + more)) == library(Mended(0, first + rest + more))
  {
    Sequences.Assoc(first, rest, more);
    MendedSplit(0, first, rest + more);
  }

  lemma CutNothing(library: seq<Byte> -> seq<Byte>, rest: seq<Byte>)
    requires Lawful(QuotedPrintable(library))
    ensures library([]) + library(rest) == library(rest)
  {
    assert EndsLine([]);
    Sequences.Empty(rest);
    assert library([] + rest) == library([]) + library(rest);
  }

  lemma ShortAfter(was: seq<Byte>, head: seq<Byte>, rest: seq<Byte>, more: seq<Byte>)
    requires head != [] && EndsLine(head) && LF !in rest
    requires ShortLines(|was|, head + rest + more)
    ensures ShortLines(|rest|, more) && |rest| < LONG_LINE
  {
    Sequences.Assoc(head, rest, more);
    ShortPast(|was|, head, rest + more);
    ShortUpTo(0, rest, more);
  }

  lemma CutLines(encoding: Encoding, was: seq<Byte>, window: seq<Byte>, more: seq<Byte>, cut: nat)
    requires Lawful(encoding) && encoding.QuotedPrintable? && Carries(encoding, was, window + more)
    requires var carried := was + window;
      && cut <= |carried|
      && (LF in carried ==> cut > 0 && carried[cut - 1] == LF && LF !in carried[cut..])
      && (LF !in carried && |carried| < LONG_LINE ==> cut == 0)
    ensures var carried := was + window;
      && Carries(encoding, carried[cut..], more)
      && encoding.library(Mended(0, carried[..cut])) + Rest(encoding, carried[cut..], more)
         == Rest(encoding, was, window + more)
  {
    hide ShortLines, Lawful, Mended;
    var carried := was + window;
    Sequences.Assoc(was, window, more);
    LineFree(was, window);
    if LF in carried {
      CutAt(was, window, cut);
      ShortAfter(was, window[..cut - |was|], carried[cut..], more);
      Sequences.Split(carried, cut);
      CutBreak(encoding.library, carried[..cut], carried[cut..], more);
    } else {
      ShortUpTo(|was|, window, more);
      CutNothing(encoding.library, Mended(0, carried + more));
      MendedNone();
      Whole0(carried);
    }
  }

  lemma MendedNone()
    ensures Mended(0, []) == []
  {
  }

  lemma Whole0(carried: seq<Byte>)
    ensures carried[..0] == [] && carried[0..] == carried
  {
  }
}

/** Mailbox names in modified UTF-7 (section 5.1.3 of RFC 3501): printable
    ASCII as itself, `&` as `&-` and every other run as `&`, the base64 of its
    UTF-16 and `-`. A `string` is a sequence of Unicode scalar values, as the
    source's `&str` is. */
module Utf7 {
  import opened Wrappers
  import Sequences

  type Byte = n: int | 0 <= n < 0x100
  type CodeUnit = n: int | 0 <= n < 0x1_0000
  type Sextet = n: int | 0 <= n < 64

  const SHIFT: char := '&'
  const UNSHIFT: char := '-'

  predicate IsDirect(c: char) {
    ' ' <= c <= '~' && c != SHIFT
  }

  /** A character that travels inside a shifted run. */
  predicate IsShifted(c: char) {
    !IsDirect(c) && c != SHIFT
  }

  predicate AllShifted(s: string) {
    forall i :: 0 <= i < |s| ==> IsShifted(s[i])
  }

  // ---------------------------------------------------------------------
  // Base64 (section 4 of RFC 4648), `,` for `/`, no padding, and a last
  // symbol whose unused bits must be zero.
  // ---------------------------------------------------------------------

  /** Symbol `v` of `A`-`Z`, `a`-`z`, `0`-`9`, `+` and `,`. */
  function SymbolOf(v: Sextet): char {
    if v < 26 then (v + 65) as char
    else if v < 52 then (v + 71) as char
    else if v < 62 then (v - 4) as char
    else if v == 62 then '+'
    else ','
  }

  function ValueOf(c: char): Option<Sextet> {
    if 'A' <= c <= 'Z' then Some(c as int - 65)
    else if 'a' <= c <= 'z' then Some(c as int - 71)
    else if '0' <= c <= '9' then Some(c as int + 4)
    else if c == '+' then Some(62)
    else if c == ',' then Some(63)
    else None
  }

  lemma SymbolValue(v: Sextet)
    ensures ValueOf(SymbolOf(v)) == Some(v)
    ensures SymbolOf(v) != UNSHIFT
    ensures IsDirect(SymbolOf(v))
  {
  }

  lemma ValueSymbol(c: char)
    requires ValueOf(c).Some?
    ensures SymbolOf(ValueOf(c).value) == c
  {
  }

  function Upper(a: Byte): Sextet { a / 4 }

  function UpperMiddle(a: Byte, b: Byte): Sextet { a % 4 * 16 + b / 16 }

  function LowerMiddle(b: Byte, c: Byte): Sextet { b % 16 * 4 + c / 64 }

  function Lower(c: Byte): Sextet { c % 64 }

  function First(a: int, b: int): Byte
    requires 0 <= a < 64 && 0 <= b < 64
  {
    a * 4 + b / 16
  }

  function Second(b: int, c: int): Byte
    requires 0 <= b < 64 && 0 <= c < 64
  {
    b % 16 * 16 + c / 4
  }

  function Third(c: int, d: int): Byte
    requires 0 <= c < 64 && 0 <= d < 64
  {
    c % 4 * 64 + d
  }

  lemma OctetsOfSextets(a: Byte, b: Byte, c: Byte)
    ensures First(Upper(a), UpperMiddle(a, b)) == a
    ensures Second(UpperMiddle(a, b), LowerMiddle(b, c)) == b
    ensures Third(LowerMiddle(b, c), Lower(c)) == c
    ensures UpperMiddle(a, 0) % 16 == 0 && LowerMiddle(b, 0) % 4 == 0
  {
    assert (a % 4 * 16 + b / 16) / 16 == a % 4 && (a % 4 * 16 + b / 16) % 16 == b / 16;
    assert (b % 16 * 4 + c / 64) / 4 == b % 16 && (b % 16 * 4 + c / 64) % 4 == c / 64;
  }

  lemma SextetsOfOctets(a: Sextet, b: Sextet, c: Sextet, d: Sextet)
    ensures Upper(First(a, b)) == a
    ensures UpperMiddle(First(a, b), Second(b, c)) == b
    ensures LowerMiddle(Second(b, c), Third(c, d)) == c
    ensures Lower(Third(c, d)) == d
    ensures b % 16 == 0 ==> UpperMiddle(First(a, b), 0) == b
    ensures c % 4 == 0 ==> LowerMiddle(Second(b, c), 0) == c
  {
  }

  function Sextets(bytes: seq<Byte>): seq<Sextet> {
    if |bytes| == 0 then []
    else if |bytes| == 1 then [Upper(bytes[0]), UpperMiddle(bytes[0], 0)]
    else if |bytes| == 2 then
      [Upper(bytes[0]), UpperMiddle(bytes[0], bytes[1]), LowerMiddle(bytes[1], 0)]
    else
      [Upper(bytes[0]), UpperMiddle(bytes[0], bytes[1]), LowerMiddle(bytes[1], bytes[2]), Lower(bytes[2])]
      + Sextets(bytes[3..])
  }

  /** The bytes of a whole number of sextets; nothing for one left over or
      for a last sextet with a bit set past the last byte. */
  function Octets(v: seq<Sextet>): Option<seq<Byte>> {
    if |v| == 0 then Some([])
    else if |v| == 1 then None
    else if |v| == 2 then
      if v[1] % 16 != 0 then None else Some([First(v[0], v[1])])
    else if |v| == 3 then
      if v[2] % 4 != 0 then None else Some([First(v[0], v[1]), Second(v[1], v[2])])
    else
      match Octets(v[4..])
      case None => None
      case Some(rest) => Some([First(v[0], v[1]), Second(v[1], v[2]), Third(v[2], v[3])] + rest)
  }

  lemma {:induction false} SextetsRoundTrip(bytes: seq<Byte>)
    ensures Octets(Sextets(bytes)) == Some(bytes)
  {
    hide First, Second, Third, Upper, UpperMiddle, LowerMiddle, Lower;
    if |bytes| > 2 {
      var a, b, c := bytes[0], bytes[1], bytes[2];
      OctetsOfSextets(a, b, c);
      SextetsRoundTrip(bytes[3..]);
      Sequences.Parts([Upper(a), UpperMiddle(a, b), LowerMiddle(b, c), Lower(c)], Sextets(bytes[3..]));
      Sequences.Split(bytes, 3);
      assert bytes[..3] == [a, b, c];
    } else if |bytes| == 2 {
      OctetsOfSextets(bytes[0], bytes[1], 0);
      assert bytes == [bytes[0], bytes[1]];
    } else if |bytes| == 1 {
      OctetsOfSextets(bytes[0], 0, 0);
      assert bytes == [bytes[0]];
    }
  }

  lemma {:induction false} SextetsCanonical(v: seq<Sextet>)
    requires Octets(v).Some?
    ensures Sextets(Octets(v).value) == v
  {
    hide First, Second, Third, Upper, UpperMiddle, LowerMiddle, Lower;
    if |v| > 3 {
      SextetsOfOctets(v[0], v[1], v[2], v[3]);
      SextetsCanonical(v[4..]);
      Sequences.Parts([First(v[0], v[1]), Second(v[1], v[2]), Third(v[2], v[3])], Octets(v[4..]).value);
      Sequences.Split(v, 4);
      assert v[..4] == [v[0], v[1], v[2], v[3]];
    } else if |v| == 3 {
      SextetsOfOctets(v[0], v[1], v[2], 0);
      assert v == [v[0], v[1], v[2]];
    } else if |v| == 2 {
      SextetsOfOctets(v[0], v[1], 0, 0);
      assert v == [v[0], v[1]];
    }
  }

  function Spelled(v: seq<Sextet>): (s: string)
    ensures |s| == |v|
    ensures forall i :: 0 <= i < |s| ==> s[i] == SymbolOf(v[i])
  {
    if v == [] then "" else [SymbolOf(v[0])] + Spelled(v[1..])
  }

  function Read(s: string): (v: Option<seq<Sextet>>)
    ensures v.Some? ==> |v.value| == |s| && forall i :: 0 <= i < |s| ==> ValueOf(s[i]) == Some(v.value[i])
    ensures (forall i :: 0 <= i < |s| ==> ValueOf(s[i]).Some?) ==> v.Some?
  {
    if s == "" then Some([])
    else
      match (ValueOf(s[0]), Read(s[1..]))
      case (Some(head), Some(rest)) => Some([head] + rest)
      case _ => None
  }

  function Base64(bytes: seq<Byte>): string {
    Spelled(Sextets(bytes))
  }

  function Unbase64(s: string): Option<seq<Byte>> {
    match Read(s)
    case None => None
    case Some(v) => Octets(v)
  }

  lemma Base64RoundTrip(bytes: seq<Byte>)
    ensures Unbase64(Base64(bytes)) == Some(bytes)
  {
    var v := Sextets(bytes);
    forall i | 0 <= i < |v| ensures ValueOf(Spelled(v)[i]) == Some(v[i]) {
      SymbolValue(v[i]);
    }
    assert Read(Spelled(v)).value == v;
    SextetsRoundTrip(bytes);
  }

  /** Strict trailing bits leave every byte string one spelling. */
  lemma Base64Canonical(s: string)
    requires Unbase64(s).Some?
    ensures Base64(Unbase64(s).value) == s
  {
    var v := Read(s).value;
    SextetsCanonical(v);
    forall i | 0 <= i < |s| ensures Spelled(v)[i] == s[i] {
      ValueSymbol(s[i]);
    }
  }

  lemma Base64Symbols(bytes: seq<Byte>)
    ensures bytes != [] ==> Base64(bytes) != ""
    ensures forall i :: 0 <= i < |Base64(bytes)| ==> IsDirect(Base64(bytes)[i]) && Base64(bytes)[i] != UNSHIFT
  {
    var v := Sextets(bytes);
    forall i | 0 <= i < |v| ensures IsDirect(Spelled(v)[i]) && Spelled(v)[i] != UNSHIFT {
      SymbolValue(v[i]);
    }
  }

  // ---------------------------------------------------------------------
  // UTF-16 and its big-endian bytes
  // ---------------------------------------------------------------------

  function Utf16Of(c: char): seq<CodeUnit> {
    var v := c as int;
    if v < 0x1_0000 then [v]
    else [0xD800 + (v - 0x1_0000) / 0x400, 0xDC00 + (v - 0x1_0000) % 0x400]
  }

  function Utf16(s: string): (units: seq<CodeUnit>)
    ensures |s| <= |units|
  {
    if s == "" then [] else Utf16Of(s[0]) + Utf16(s[1..])
  }

  function Joined(high: int, low: int): char
    requires 0xD800 <= high < 0xDC00 <= low < 0xE000
  {
    (0x1_0000 + (high - 0xD800) * 0x400 + (low - 0xDC00)) as char
  }

  /** The text of UTF-16 units; nothing where a surrogate stands alone. */
  function FromUtf16(units: seq<CodeUnit>): Option<string> {
    if units == [] then Some("")
    else if units[0] < 0xD800 || 0xE000 <= units[0] then
      match FromUtf16(units[1..])
      case None => None
      case Some(rest) => Some([units[0] as char] + rest)
    else if units[0] < 0xDC00 && |units| > 1 && 0xDC00 <= units[1] < 0xE000 then
      match FromUtf16(units[2..])
      case None => None
      case Some(rest) => Some([Joined(units[0], units[1])] + rest)
    else None
  }

  lemma {:induction false} Utf16RoundTrip(s: string)
    ensures FromUtf16(Utf16(s)) == Some(s)
  {
    if s != "" {
      Utf16RoundTrip(s[1..]);
      Sequences.Parts(Utf16Of(s[0]), Utf16(s[1..]));
      Sequences.Cons(s);
    }
  }

  lemma {:induction false} Utf16Canonical(units: seq<CodeUnit>)
    requires FromUtf16(units).Some?
    ensures Utf16(FromUtf16(units).value) == units
  {
    if units != [] {
      var n := if units[0] < 0xD800 || 0xE000 <= units[0] then 1 else 2;
      Utf16Canonical(units[n..]);
      Sequences.Cons(FromUtf16(units).value);
      Sequences.Split(units, n);
    }
  }

  lemma {:induction false} Utf16Append(s: string, c: char)
    ensures Utf16(s + [c]) == Utf16(s) + Utf16Of(c)
  {
    if s == "" {
      Sequences.Empty([c]);
      Sequences.Empty(Utf16Of(c));
    } else {
      Utf16Append(s[1..], c);
      Sequences.Tail(s, [c]);
      hide Utf16Of;
      Sequences.Assoc(Utf16Of(s[0]), Utf16(s[1..]), Utf16Of(c));
    }
  }

  function BigEndian(units: seq<CodeUnit>): (bytes: seq<Byte>)
    ensures |bytes| == 2 * |units|
  {
    if units == [] then [] else [units[0] / 0x100, units[0] % 0x100] + BigEndian(units[1..])
  }

  function Pair(high: int, low: int): CodeUnit
    requires 0 <= high < 0x100 && 0 <= low < 0x100
  {
    high * 0x100 + low
  }

  function Units(bytes: seq<Byte>): (units: seq<CodeUnit>)
    requires |bytes| % 2 == 0
  {
    if bytes == [] then [] else [Pair(bytes[0], bytes[1])] + Units(bytes[2..])
  }

  lemma {:induction false} BigEndianRoundTrip(units: seq<CodeUnit>)
    ensures Units(BigEndian(units)) == units
  {
    if units != [] {
      BigEndianRoundTrip(units[1..]);
      Sequences.Parts([units[0] / 0x100, units[0] % 0x100], BigEndian(units[1..]));
    }
  }

  lemma {:induction false} BigEndianCanonical(bytes: seq<Byte>)
    requires |bytes| % 2 == 0
    ensures BigEndian(Units(bytes)) == bytes
  {
    if bytes != [] {
      BigEndianCanonical(bytes[2..]);
      var unit := Pair(bytes[0], bytes[1]);
      assert unit / 0x100 == bytes[0] && unit % 0x100 == bytes[1];
      hide Pair;
      Sequences.Parts([unit], Units(bytes[2..]));
      Sequences.Split(bytes, 2);
    }
  }

  lemma {:induction false} BigEndianAppend(a: seq<CodeUnit>, b: seq<CodeUnit>)
    ensures BigEndian(a + b) == BigEndian(a) + BigEndian(b)
  {
    if a == [] {
      Sequences.Empty(b);
    } else {
      BigEndianAppend(a[1..], b);
      Sequences.Tail(a, b);
      Sequences.Assoc([a[0] / 0x100, a[0] % 0x100], BigEndian(a[1..]), BigEndian(b));
    }
  }

  function RunBytes(s: string): (bytes: seq<Byte>)
    ensures bytes == [] <==> s == ""
  {
    BigEndian(Utf16(s))
  }

  // ---------------------------------------------------------------------
  // The codec on values
  // ---------------------------------------------------------------------

  /** Where `c` first stands in `s`. */
  function Find(s: string, c: char): (at: Option<nat>)
    ensures at.None? ==> forall i :: 0 <= i < |s| ==> s[i] != c
    ensures at.Some? ==> at.value < |s| && s[at.value] == c && forall i :: 0 <= i < at.value ==> s[i] != c
  {
    if s == "" then None
    else if s[0] == c then Some(0)
    else
      match Find(s[1..], c)
      case None => Sequences.Cons(s); None
      case Some(at) => Sequences.Cons(s); Some(at + 1)
  }

  lemma FindAt(s: string, c: char, k: nat)
    requires k < |s| && s[k] == c && forall i :: 0 <= i < k ==> s[i] != c
    ensures Find(s, c) == Some(k)
  {
  }

  /** The text of one shifted run; the empty run is the shift character. */
  function DecodeRun(run: string): Option<string> {
    if run == "" then Some([SHIFT])
    else
      match Unbase64(run)
      case None => None
      case Some(bytes) => if |bytes| % 2 != 0 then None else FromUtf16(Units(bytes))
  }

  lemma DecodeRunOfShifted(s: string)
    requires s != ""
    ensures DecodeRun(Base64(RunBytes(s))) == Some(s)
  {
    hide Base64, Unbase64, Utf16, FromUtf16, BigEndian, Units;
    Base64Symbols(RunBytes(s));
    Base64RoundTrip(RunBytes(s));
    BigEndianRoundTrip(Utf16(s));
    Utf16RoundTrip(s);
  }

  lemma ShiftedOfDecodeRun(run: string)
    requires run != "" && DecodeRun(run).Some?
    ensures Base64(RunBytes(DecodeRun(run).value)) == run
    ensures DecodeRun(run).value != ""
  {
    var bytes := Unbase64(run).value;
    Base64Canonical(run);
    assert bytes != [];
    hide Base64, Unbase64;
    BigEndianCanonical(bytes);
    Utf16Canonical(Units(bytes));
  }

  /** What a run reads as; one that decodes to nothing stays as received. */
  function RunText(run: string): string {
    match DecodeRun(run)
    case Some(text) => text
    case None => [SHIFT] + run + [UNSHIFT]
  }

  datatype Cut = Whole | Cut(before: string, run: string, after: string)

  /** The text cut at its first closed run. */
  function FirstRun(wire: string): (cut: Cut)
    ensures cut.Cut? ==> |cut.after| < |wire|
  {
    match Find(wire, SHIFT)
    case None => Whole
    case Some(start) =>
      var after := wire[start + 1..];
      match Find(after, UNSHIFT)
      case None => Whole
      case Some(end) => Cut(wire[..start], after[..end], after[end + 1..])
  }

  /** A closed run between what stands ahead of it and what follows. */
  function Closed(before: string, run: string, after: string): string {
    before + ([SHIFT] + (run + ([UNSHIFT] + after)))
  }

  lemma FindPast(before: string, c: char, after: string)
    requires forall i :: 0 <= i < |before| ==> before[i] != c
    ensures Find(before + ([c] + after), c) == Some(|before|)
    ensures (before + ([c] + after))[..|before|] == before
    ensures (before + ([c] + after))[|before| + 1..] == after
  {
    FindAt(before + ([c] + after), c, |before|);
  }

  lemma FirstRunOf(before: string, run: string, after: string)
    requires forall i :: 0 <= i < |before| ==> before[i] != SHIFT
    requires forall i :: 0 <= i < |run| ==> run[i] != UNSHIFT
    ensures FirstRun(Closed(before, run, after)) == Cut(before, run, after)
  {
    FindPast(before, SHIFT, run + ([UNSHIFT] + after));
    FindPast(run, UNSHIFT, after);
    CutAt(Closed(before, run, after), |before|, |run|);
    hide FirstRun, Find;
  }

  lemma CutAt(wire: string, start: nat, end: nat)
    requires Find(wire, SHIFT) == Some(start) && start < |wire|
    requires Find(wire[start + 1..], UNSHIFT) == Some(end) && end < |wire| - start - 1
    ensures FirstRun(wire) == Cut(wire[..start], wire[start + 1..][..end], wire[start + 1..][end + 1..])
  {
    hide Find;
  }

  /** What a wire name reads as: the text ahead of each run as it stands and
      the text of the run. */
  function Decoded(wire: string): string
    decreases |wire|
  {
    match FirstRun(wire)
    case Whole => wire
    case Cut(before, run, after) => before + RunText(run) + Decoded(after)
  }

  /** How many leading characters of `s` travel in one shifted run. */
  function RunLength(s: string): (n: nat)
    ensures n <= |s| && AllShifted(s[..n])
    ensures n < |s| ==> !IsShifted(s[n])
  {
    if s == "" || !IsShifted(s[0]) then 0
    else
      var n := RunLength(s[1..]);
      assert s[..n + 1] == [s[0]] + s[1..][..n];
      n + 1
  }

  lemma {:induction false} RunLengthIs(s: string, n: nat)
    requires n <= |s| && AllShifted(s[..n]) && (n < |s| ==> !IsShifted(s[n]))
    ensures RunLength(s) == n
  {
    if n > 0 {
      assert s[..n][0] == s[0];
      assert s[1..][..n - 1] == s[..n][1..];
      RunLengthIs(s[1..], n - 1);
    }
  }

  /** The wire form by its grammar: each maximal run is shifted as one. */
  function Encoded(name: string): string {
    if name == "" then ""
    else if IsDirect(name[0]) then [name[0]] + Encoded(name[1..])
    else if name[0] == SHIFT then Closed("", "", Encoded(name[1..]))
    else
      var n := RunLength(name);
      Closed("", Base64(RunBytes(name[..n])), Encoded(name[n..]))
  }

  // ---------------------------------------------------------------------
  // The source's loops
  // ---------------------------------------------------------------------

  /** One turn of the loop on a closed run. */
  lemma DecodedStep(rest: string, start: nat, end: nat)
    requires Find(rest, SHIFT) == Some(start) && start < |rest|
    requires Find(rest[start + 1..], UNSHIFT) == Some(end) && end < |rest| - start - 1
    ensures Decoded(rest)
         == rest[..start] + RunText(rest[start + 1..][..end]) + Decoded(rest[start + 1..][end + 1..])
  {
    CutAt(rest, start, end);
    hide FirstRun, RunText;
  }

  lemma ReceivedRun(rest: string, start: nat, end: nat)
    requires start + end + 2 <= |rest|
    requires rest[start] == SHIFT && rest[start + 1..][end] == UNSHIFT
    ensures rest[start..start + end + 2] == [SHIFT] + rest[start + 1..][..end] + [UNSHIFT]
  {
  }

  /** Text without a closed run reads as it stands. */
  lemma DecodedWhole(rest: string)
    requires Find(rest, SHIFT).Some? ==> Find(rest[Find(rest, SHIFT).value + 1..], UNSHIFT).None?
    ensures Decoded(rest) == rest
  {
  }

  method Decode(name: string) returns (out: string)
    ensures out == Decoded(name)
  {
    hide Decoded, DecodeRun, FirstRun;
    out := "";
    var rest := name;
    while true
      invariant out + Decoded(rest) == Decoded(name)
      decreases |rest|
    {
      var start := Find(rest, SHIFT);
      if start.None? {
        DecodedWhole(rest);
        break;
      }
      var after := rest[start.value + 1..];
      var end := Find(after, UNSHIFT);
      if end.None? {
        DecodedWhole(rest);
        Sequences.Split(rest, start.value);
        Sequences.Assoc(out, rest[..start.value], rest[start.value..]);
        out := out + rest[..start.value];
        out := out + rest[start.value..];
        return;
      }
      DecodedStep(rest, start.value, end.value);
      var run := after[..end.value];
      ReceivedRun(rest, start.value, end.value);
      Sequences.Assoc(out, rest[..start.value], RunText(run));
      Sequences.Assoc(out, rest[..start.value] + RunText(run), Decoded(after[end.value + 1..]));
      out := out + rest[..start.value];
      match DecodeRun(run) {
        case Some(text) => out := out + text;
        case None => out := out + rest[start.value..start.value + end.value + 2];
      }
      rest := after[end.value + 1..];
    }
    out := out + rest;
  }

  function Flushed(out: string, run: seq<Byte>): string {
    if run == [] then out else out + [SHIFT] + Base64(run) + [UNSHIFT]
  }

  lemma ClosedAhead(out: string, run: string, rest: string)
    ensures out + Closed("", run, rest) == out + [SHIFT] + run + [UNSHIFT] + rest
  {
    Sequences.Empty([SHIFT] + (run + ([UNSHIFT] + rest)));
    Sequences.Assoc(out, [SHIFT], run + ([UNSHIFT] + rest));
    Sequences.Assoc(out + [SHIFT], run, [UNSHIFT] + rest);
    Sequences.Assoc(out + [SHIFT] + run, [UNSHIFT], rest);
  }

  /** The buffer written out as one run and emptied. */
  method Flush(out: string, run: seq<Byte>) returns (flushed: string, left: seq<Byte>)
    ensures flushed == Flushed(out, run) && left == []
  {
    left := run;
    if run == [] {
      return out, left;
    }
    flushed := out + [SHIFT];
    flushed := flushed + Base64(run);
    flushed := flushed + [UNSHIFT];
    left := [];
  }

  function RunOf(name: string, from: nat, to: nat): seq<Byte>
    requires from <= to <= |name|
  {
    RunBytes(name[from..to])
  }

  function EncodedFrom(name: string, from: nat): string
    requires from <= |name|
  {
    Encoded(name[from..])
  }

  /** The shifted characters from `from` to `to`, followed by one that is not
      shifted or by the end, are one run of the grammar. */
  lemma FlushedRun(out: string, name: string, from: nat, to: nat)
    requires from <= to <= |name| && forall k :: from <= k < to ==> IsShifted(name[k])
    requires to < |name| ==> !IsShifted(name[to])
    ensures out + EncodedFrom(name, from) == Flushed(out, RunOf(name, from, to)) + EncodedFrom(name, to)
  {
    hide RunBytes, Base64;
    if from < to {
      var rest, n := name[from..], to - from;
      Sequences.Slice(name, from, n);
      Sequences.Front(name, from);
      assert forall k :: 0 <= k < n ==> rest[..n][k] == name[from + k];
      RunLengthIs(rest, n);
      hide Closed;
      ClosedAhead(out, Base64(RunBytes(name[from..to])), Encoded(name[to..]));
    }
  }

  lemma RunOfAppend(name: string, from: nat, i: nat)
    requires from <= i < |name|
    ensures RunOf(name, from, i + 1) == RunOf(name, from, i) + BigEndian(Utf16Of(name[i]))
  {
    Utf16Append(name[from..i], name[i]);
    BigEndianAppend(Utf16(name[from..i]), Utf16Of(name[i]));
    Sequences.Extend(name, from, i);
  }

  lemma ShiftAlone(out: string)
    ensures out + [SHIFT] + "" + [UNSHIFT] == out + [SHIFT, UNSHIFT]
  {
  }

  /** A character outside every run is written ahead of the rest. */
  lemma EncodedStep(out: string, name: string, i: nat)
    requires i < |name| && !IsShifted(name[i])
    ensures out + EncodedFrom(name, i)
         == out + (if name[i] == SHIFT then [SHIFT, UNSHIFT] else [name[i]]) + EncodedFrom(name, i + 1)
  {
    Sequences.Front(name, i);
    hide Closed;
    if name[i] == SHIFT {
      ClosedAhead(out, "", Encoded(name[i + 1..]));
      ShiftAlone(out);
    } else {
      Sequences.Assoc(out, [name[i]], Encoded(name[i + 1..]));
    }
  }

  lemma EncodedEnds(name: string)
    ensures EncodedFrom(name, 0) == Encoded(name)
    ensures EncodedFrom(name, |name|) == ""
    ensures forall i :: 0 <= i <= |name| ==> RunOf(name, i, i) == []
  {
    assert name[0..] == name;
  }

  method Encode(name: string) returns (out: string)
    ensures out == Encoded(name)
  {
    out := "";
    var run: seq<Byte> := [];
    ghost var from := 0;
    EncodedEnds(name);
    hide Encoded, EncodedFrom, RunOf, Flushed, BigEndian, Utf16Of;
    for i := 0 to |name|
      invariant from <= i && forall k :: from <= k < i ==> IsShifted(name[k])
      invariant run == RunOf(name, from, i)
      invariant out + EncodedFrom(name, from) == Encoded(name)
    {
      var c := name[i];
      if IsDirect(c) {
        FlushedRun(out, name, from, i);
        out, run := Flush(out, run);
        EncodedStep(out, name, i);
        out := out + [c];
        from := i + 1;
      } else if c == SHIFT {
        FlushedRun(out, name, from, i);
        out, run := Flush(out, run);
        EncodedStep(out, name, i);
        out := out + [SHIFT, UNSHIFT];
        from := i + 1;
      } else {
        RunOfAppend(name, from, i);
        run := run + BigEndian(Utf16Of(c));
      }
    }
    FlushedRun(out, name, from, |name|);
    out, run := Flush(out, run);
  }

  // ---------------------------------------------------------------------
  // Round trip, injectivity and the image of the encoder
  // ---------------------------------------------------------------------

  lemma FirstRunDirect(c: char, rest: string)
    requires c != SHIFT
    ensures FirstRun([c] + rest) == match FirstRun(rest)
      case Whole => Whole
      case Cut(before, run, after) => Cut([c] + before, run, after)
  {
    Sequences.Parts([c], rest);
    if Find(rest, SHIFT).Some? {
      var start := Find(rest, SHIFT).value;
      FindAt([c] + rest, SHIFT, start + 1);
      Sequences.Slice([c] + rest, 1, start + 1);
      PrefixDirect(c, rest, start);
    }
  }

  lemma PrefixDirect(c: char, rest: string, n: nat)
    requires n <= |rest|
    ensures ([c] + rest)[..n + 1] == [c] + rest[..n]
  {
  }

  lemma DecodedDirect(c: char, rest: string)
    requires c != SHIFT
    ensures Decoded([c] + rest) == [c] + Decoded(rest)
  {
    hide FirstRun, RunText;
    FirstRunDirect(c, rest);
    match FirstRun(rest) {
      case Whole =>
      case Cut(before, run, after) =>
        Sequences.Assoc([c], before, RunText(run));
        Sequences.Assoc([c], before + RunText(run), Decoded(after));
    }
  }

  lemma DecodedRun(run: string, rest: string)
    requires forall i :: 0 <= i < |run| ==> run[i] != UNSHIFT
    ensures Decoded(Closed("", run, rest)) == RunText(run) + Decoded(rest)
  {
    hide RunText, FirstRun, Closed;
    FirstRunOf("", run, rest);
    Sequences.Empty(RunText(run));
  }

  /** Every name survives the wire. */
  lemma {:induction false} RoundTrip(name: string)
    ensures Decoded(Encoded(name)) == name
    decreases |name|
  {
    hide Closed, Decoded;
    if name == "" {
      DecodedWhole("");
    } else if IsDirect(name[0]) {
      RoundTrip(name[1..]);
      DecodedDirect(name[0], Encoded(name[1..]));
      Sequences.Cons(name);
    } else if name[0] == SHIFT {
      RoundTrip(name[1..]);
      DecodedRun("", Encoded(name[1..]));
      Sequences.Cons(name);
    } else {
      var n := RunLength(name);
      RoundTrip(name[n..]);
      DecodeRunOfShifted(name[..n]);
      hide RunBytes, Base64, RunLength, DecodeRun;
      Base64Symbols(RunBytes(name[..n]));
      DecodedRun(Base64(RunBytes(name[..n])), Encoded(name[n..]));
      Sequences.Split(name, n);
    }
  }

  lemma EncodedInjective(a: string, b: string)
    requires Encoded(a) == Encoded(b)
    ensures a == b
  {
    RoundTrip(a);
    RoundTrip(b);
  }

  // Runs by their bits, with no octet and no text between.

  function UpperUnit(a: int, b: int, c: int): CodeUnit
    requires 0 <= a < 64 && 0 <= b < 64 && 0 <= c < 64
  {
    a * 1024 + b * 16 + c / 4
  }

  function MiddleUnit(c: int, d: int, e: int, f: int): CodeUnit
    requires 0 <= c < 64 && 0 <= d < 64 && 0 <= e < 64 && 0 <= f < 64
  {
    c % 4 * 16384 + d * 256 + e * 4 + f / 16
  }

  function LowerUnit(f: int, g: int, h: int): CodeUnit
    requires 0 <= f < 64 && 0 <= g < 64 && 0 <= h < 64
  {
    f % 16 * 4096 + g * 64 + h
  }

  /** Six bits a symbol, cut sixteen at a time. */
  function Sixteens(v: seq<Sextet>): seq<CodeUnit> {
    if |v| < 3 then []
    else if |v| < 6 then [UpperUnit(v[0], v[1], v[2])]
    else if |v| < 8 then [UpperUnit(v[0], v[1], v[2]), MiddleUnit(v[2], v[3], v[4], v[5])]
    else
      [UpperUnit(v[0], v[1], v[2]), MiddleUnit(v[2], v[3], v[4], v[5]), LowerUnit(v[5], v[6], v[7])]
      + Sixteens(v[8..])
  }

  /** The symbols hold whole units and what is left of the last one is zero. */
  predicate WholeUnits(v: seq<Sextet>) {
    || |v| % 8 == 0
    || (|v| % 8 == 3 && v[|v| - 1] % 4 == 0)
    || (|v| % 8 == 6 && v[|v| - 1] % 16 == 0)
  }

  /** Shifted characters of one unit, and surrogates in pairs. */
  predicate ShiftedUnits(units: seq<CodeUnit>) {
    units == []
    || (if units[0] < 0xD800 || 0xE000 <= units[0] then IsShifted(units[0] as char) && ShiftedUnits(units[1..])
        else units[0] < 0xDC00 && |units| > 1 && 0xDC00 <= units[1] < 0xE000 && ShiftedUnits(units[2..]))
  }

  predicate IsRun(run: string) {
    Read(run).Some? && WholeUnits(Read(run).value) && ShiftedUnits(Sixteens(Read(run).value))
  }

  lemma UnitBits(a: Sextet, b: Sextet, c: Sextet, d: Sextet, e: Sextet, f: Sextet)
    ensures Pair(First(a, b), Second(b, c)) == UpperUnit(a, b, c)
    ensures Pair(Third(c, d), First(e, f)) == MiddleUnit(c, d, e, f)
    ensures Pair(Second(a, b), Third(b, c)) == LowerUnit(a, b, c)
  {
  }

  /** Eight symbols are six octets. */
  lemma OctetsOfEight(v: seq<Sextet>)
    requires |v| >= 8
    ensures Octets(v).Some? <==> Octets(v[8..]).Some?
    ensures Octets(v).Some? ==>
      var head := [First(v[0], v[1]), Second(v[1], v[2]), Third(v[2], v[3]),
                   First(v[4], v[5]), Second(v[5], v[6]), Third(v[6], v[7])];
      Octets(v).value == head + Octets(v[8..]).value
  {
    hide First, Second, Third;
    Sequences.Slice(v, 4, 4);
    assert v[4..][..4] == [v[4], v[5], v[6], v[7]];
    assert v[4..][0] == v[4] && v[4..][1] == v[5] && v[4..][2] == v[6] && v[4..][3] == v[7];
    if Octets(v[8..]).Some? {
      Sequences.Assoc([First(v[0], v[1]), Second(v[1], v[2]), Third(v[2], v[3])],
        [First(v[4], v[5]), Second(v[5], v[6]), Third(v[6], v[7])], Octets(v[8..]).value);
    }
  }

  lemma EvenPast(n: nat, k: nat)
    requires k == 2 || k == 6
    ensures (k + n) % 2 == n % 2
  {
  }

  lemma UnitsNext(a: Byte, b: Byte, rest: seq<Byte>)
    requires |rest| % 2 == 0
    ensures |[a, b] + rest| % 2 == 0 && Units([a, b] + rest) == [Pair(a, b)] + Units(rest)
  {
    hide Pair;
    EvenPast(|rest|, 2);
    Sequences.Parts([a, b], rest);
  }

  lemma ThreeTwos(a: Byte, b: Byte, c: Byte, d: Byte, e: Byte, f: Byte, rest: seq<Byte>)
    ensures [a, b, c, d, e, f] + rest == [a, b] + ([c, d] + ([e, f] + rest))
  {
    Sequences.Assoc([c, d], [e, f], rest);
    Sequences.Assoc([a, b], [c, d] + [e, f], rest);
  }

  lemma ThreeOnes(a: CodeUnit, b: CodeUnit, c: CodeUnit, rest: seq<CodeUnit>)
    ensures [a, b, c] + rest == [a] + ([b] + ([c] + rest))
  {
    Sequences.Assoc([b], [c], rest);
    Sequences.Assoc([a], [b] + [c], rest);
  }

  lemma UnitsOfSix(a: Byte, b: Byte, c: Byte, d: Byte, e: Byte, f: Byte, rest: seq<Byte>)
    requires |rest| % 2 == 0
    ensures Units([a, b, c, d, e, f] + rest) == [Pair(a, b), Pair(c, d), Pair(e, f)] + Units(rest)
  {
    UnitsNext(e, f, rest);
    UnitsNext(c, d, [e, f] + rest);
    UnitsNext(a, b, [c, d] + ([e, f] + rest));
    ThreeTwos(a, b, c, d, e, f, rest);
    hide Units, Pair;
    ThreeOnes(Pair(a, b), Pair(c, d), Pair(e, f), Units(rest));
  }

  lemma {:induction false} UnitsAreSixteens(v: seq<Sextet>)
    ensures Octets(v).Some? && |Octets(v).value| % 2 == 0 <==> WholeUnits(v)
    ensures WholeUnits(v) ==> Units(Octets(v).value) == Sixteens(v)
  {
    if |v| >= 8 {
      var rest := v[8..];
      OctetsOfEight(v);
      UnitsAreSixteens(rest);
      WholeBehind(v);
      if Octets(rest).Some? { EvenPast(|Octets(rest).value|, 6); }
      hide Octets, WholeUnits, First, Second, Third, Pair, UpperUnit, MiddleUnit, LowerUnit, Units;
      UnitBits(v[0], v[1], v[2], v[3], v[4], v[5]);
      UnitBits(v[5], v[6], v[7], 0, 0, 0);
      if WholeUnits(v) {
        UnitsOfSix(First(v[0], v[1]), Second(v[1], v[2]), Third(v[2], v[3]),
          First(v[4], v[5]), Second(v[5], v[6]), Third(v[6], v[7]), Octets(rest).value);
      }
    } else {
      UnitsOfFew(v);
    }
  }

  lemma WholeBehind(v: seq<Sextet>)
    requires |v| >= 8
    ensures WholeUnits(v) <==> WholeUnits(v[8..])
  {
  }

  lemma UnitsOfFew(v: seq<Sextet>)
    requires |v| < 8
    ensures Octets(v).Some? && |Octets(v).value| % 2 == 0 <==> WholeUnits(v)
    ensures WholeUnits(v) ==> Units(Octets(v).value) == Sixteens(v)
  {
    hide First, Second, Third, Pair, UpperUnit, MiddleUnit;
    if |v| == 3 {
      UnitBits(v[0], v[1], v[2], 0, 0, 0);
      if v[2] % 4 == 0 {
        UnitsNext(First(v[0], v[1]), Second(v[1], v[2]), []);
      }
    } else if |v| == 6 {
      UnitBits(v[0], v[1], v[2], v[3], v[4], v[5]);
      if v[5] % 16 == 0 {
        var second := [Third(v[2], v[3]), First(v[4], v[5])];
        assert Octets(v[4..]) == Some([First(v[4], v[5])]);
        assert Octets(v).value == [First(v[0], v[1]), Second(v[1], v[2])] + second;
        UnitsNext(First(v[0], v[1]), Second(v[1], v[2]), second);
        UnitsNext(Third(v[2], v[3]), First(v[4], v[5]), []);
        Sequences.Empty(second);
        hide Octets, Units;
      }
    }
  }

  lemma {:induction false} ShiftedUnitsRead(units: seq<CodeUnit>)
    ensures FromUtf16(units).Some? && AllShifted(FromUtf16(units).value) <==> ShiftedUnits(units)
  {
    if units != [] {
      var n := if units[0] < 0xD800 || 0xE000 <= units[0] then 1 else 2;
      if n <= |units| {
        ShiftedUnitsRead(units[n..]);
        if FromUtf16(units).Some? {
          ShiftedFirst(FromUtf16(units).value);
        }
      }
    }
  }

  lemma ShiftedFirst(s: string)
    requires s != ""
    ensures AllShifted(s) <==> IsShifted(s[0]) && AllShifted(s[1..])
  {
    Sequences.Cons(s);
  }

  /** The grammar of a run and its decoder accept the same symbols. */
  lemma RunReads(run: string)
    requires run != ""
    ensures DecodeRun(run).Some? && AllShifted(DecodeRun(run).value) <==> IsRun(run)
  {
    if Read(run).Some? {
      UnitsAreSixteens(Read(run).value);
      ShiftedUnitsRead(Sixteens(Read(run).value));
    }
    hide Read, Octets, WholeUnits, Sixteens, Units, FromUtf16, AllShifted, ShiftedUnits;
  }

  // ---------------------------------------------------------------------
  // What stands on the wire, character by character
  // ---------------------------------------------------------------------

  /** The symbol of six bits by section 5.1.3 of RFC 3501. */
  predicate Writes(c: char, v: Sextet) {
    || (v < 26 && c as int == 'A' as int + v)
    || (26 <= v < 52 && c as int == 'a' as int + (v - 26))
    || (52 <= v < 62 && c as int == '0' as int + (v - 52))
    || (v == 62 && c == '+')
    || (v == 63 && c == ',')
  }

  /** The UTF-16 of a text: a character of one unit, or the surrogates that
      stand for it together. */
  predicate Utf16Spells(units: seq<CodeUnit>, s: string)
    decreases |s|
  {
    if s == "" then units == []
    else if s[0] as int < 0x1_0000 then units != [] && units[0] == s[0] as int && Utf16Spells(units[1..], s[1..])
    else
      && |units| > 1 && 0xD800 <= units[0] < 0xDC00 <= units[1] < 0xE000
      && (var high: int, low: int := units[0], units[1];
          s[0] as int == 0x1_0000 + (high - 0xD800) * 0x400 + (low - 0xDC00))
      && Utf16Spells(units[2..], s[1..])
  }

  ghost predicate SymbolsOf(run: string, v: seq<Sextet>) {
    |run| == |v| && forall i :: 0 <= i < |v| ==> Writes(run[i], v[i])
  }

  /** The run's symbols are the bits of the text's UTF-16, the last one filled
      up with zeros. */
  ghost predicate Spells(run: string, s: string) {
    exists v :: SymbolsOf(run, v) && WholeUnits(v) && Utf16Spells(Sixteens(v), s)
  }

  lemma ReadsSymbols(run: string, v: seq<Sextet>)
    ensures Read(run) == Some(v) <==> SymbolsOf(run, v)
  {
    if SymbolsOf(run, v) {
      forall i | 0 <= i < |run| ensures ValueOf(run[i]) == Some(v[i]) {
      }
      assert Read(run).value == v;
    }
  }

  lemma {:induction false} ReadsUnits(units: seq<CodeUnit>, s: string)
    ensures FromUtf16(units) == Some(s) <==> Utf16Spells(units, s)
    decreases |s|
  {
    if s == "" {
      if units != [] && FromUtf16(units).Some? {
        assert FromUtf16(units).value != "";
      }
    } else if units != [] {
      var n := if units[0] < 0xD800 || 0xE000 <= units[0] then 1 else 2;
      Sequences.Cons(s);
      if n <= |units| {
        ReadsUnits(units[n..], s[1..]);
        if FromUtf16(units).Some? {
          Sequences.Cons(FromUtf16(units).value);
        }
      }
    }
  }

  /** The decoder of a run reads exactly the text the run spells. */
  lemma ReadsWhatIsSpelled(run: string, s: string)
    requires run != ""
    ensures DecodeRun(run) == Some(s) <==> Spells(run, s)
  {
    if DecodeRun(run) == Some(s) {
      var v := Read(run).value;
      ReadsSymbols(run, v);
      UnitsAreSixteens(v);
      ReadsUnits(Sixteens(v), s);
    }
    if Spells(run, s) {
      var v :| SymbolsOf(run, v) && WholeUnits(v) && Utf16Spells(Sixteens(v), s);
      ReadsSymbols(run, v);
      UnitsAreSixteens(v);
      ReadsUnits(Sixteens(v), s);
    }
  }

  /** A name of printable ASCII without an ampersand goes out and comes in as
      it stands. */
  lemma {:induction false} PlainStays(name: string)
    requires forall i :: 0 <= i < |name| ==> ' ' <= name[i] <= '~' && name[i] != '&'
    ensures Encoded(name) == name && Decoded(name) == name
  {
    DecodedWhole(name);
    hide Decoded;
    if name != "" {
      PlainStays(name[1..]);
      Sequences.Cons(name);
    }
  }

  lemma RunLengthThen(a: string, b: string)
    requires b != "" && RunLength(a) == |a| ==> !IsShifted(b[0])
    ensures RunLength(a + b) == RunLength(a)
  {
    var n := RunLength(a);
    assert (a + b)[..n] == a[..n];
    RunLengthIs(a + b, n);
  }

  /** Two texts are encoded apart wherever no run stands across them. */
  lemma {:induction false} EncodedThen(a: string, b: string)
    requires a != "" && b != "" ==> !IsShifted(a[|a| - 1]) || !IsShifted(b[0])
    ensures Encoded(a + b) == Encoded(a) + Encoded(b)
    decreases |a|
  {
    if a == "" {
      Sequences.Empty(b);
      Sequences.Empty(Encoded(b));
    } else {
      Sequences.Tail(a, b);
      if IsDirect(a[0]) {
        EncodedThen(a[1..], b);
        Sequences.Assoc([a[0]], Encoded(a[1..]), Encoded(b));
      } else if a[0] == SHIFT {
        EncodedThen(a[1..], b);
        ClosedThen("", Encoded(a[1..]), Encoded(b));
      } else {
        var n := RunLength(a);
        RunLengthThen(a, b);
        assert (a + b)[..n] == a[..n] && (a + b)[n..] == a[n..] + b;
        hide Closed, RunBytes, Base64, RunLength;
        EncodedThen(a[n..], b);
        ClosedThen(Base64(RunBytes(a[..n])), Encoded(a[n..]), Encoded(b));
      }
    }
  }

  lemma ClosedThen(run: string, a: string, b: string)
    ensures Closed("", run, a + b) == Closed("", run, a) + b
  {
    Sequences.Empty([SHIFT] + (run + ([UNSHIFT] + (a + b))));
    Sequences.Empty([SHIFT] + (run + ([UNSHIFT] + a)));
    Sequences.Assoc([UNSHIFT], a, b);
    Sequences.Assoc(run, [UNSHIFT] + a, b);
    Sequences.Assoc([SHIFT], run + ([UNSHIFT] + a), b);
  }

  /** The encoder, character by character: printable ASCII stands, an ampersand
      is written `&-`, and characters below the space or above the tilde, as
      many as stand together, are written as one run that spells them. */
  lemma EncodesRuns(before: string, s: string, after: string)
    requires s != "" && forall i :: 0 <= i < |s| ==> s[i] < ' ' || s[i] > '~'
    requires before != "" ==> ' ' <= before[|before| - 1] <= '~'
    requires after != "" ==> ' ' <= after[0] <= '~'
    ensures exists run ::
      (Spells(run, s) && Encoded(before + (s + after)) == Encoded(before) + ("&" + (run + ("-" + Encoded(after)))))
  {
    var run := Base64(RunBytes(s));
    Base64Symbols(RunBytes(s));
    DecodeRunOfShifted(s);
    ReadsWhatIsSpelled(run, s);
    EncodedThen(before, s + after);
    Sequences.Parts(s, after);
    RunLengthIs(s + after, |s|);
    hide Base64, RunBytes, Spells, RunLength;
    assert Encoded(s + after) == Closed("", run, Encoded(after));
    Sequences.Empty([SHIFT] + (run + ([UNSHIFT] + Encoded(after))));
  }

  lemma EncodesAmpersand(before: string, after: string)
    ensures Encoded(before + ("&" + after)) == Encoded(before) + ("&-" + Encoded(after))
  {
    hide Encoded, Closed;
    EncodedThen(before, "&" + after);
    AmpersandAlone(after);
  }

  lemma AmpersandAlone(after: string)
    ensures Encoded("&" + after) == "&-" + Encoded(after)
  {
    Sequences.Behind('&', after);
    hide RunLength;
    assert Encoded("&" + after) == Closed("", "", Encoded(after));
    Sequences.Empty([UNSHIFT] + Encoded(after));
    Sequences.Empty([SHIFT] + ([UNSHIFT] + Encoded(after)));
    hide Encoded;
    assert [SHIFT] + [UNSHIFT] == "&-";
    Sequences.Assoc([SHIFT], [UNSHIFT], Encoded(after));
  }

  /** The decoder: text outside runs stands, `&-` is an ampersand, a run is the
      text it spells, and one that spells nothing stands as received. */
  lemma DecodesRuns(before: string, run: string, after: string, s: string)
    requires '&' !in before && '-' !in run
    ensures var wire := before + ("&" + (run + ("-" + after)));
      && (run == "" ==> Decoded(wire) == before + "&" + Decoded(after))
      && (run != "" && Spells(run, s) ==> Decoded(wire) == before + s + Decoded(after))
      && (run != "" && (forall text :: !Spells(run, text)) ==>
            Decoded(wire) == before + ("&" + run + "-") + Decoded(after))
  {
    FirstRunOf(before, run, after);
    hide FirstRun, Spells;
    if run != "" {
      ReadsWhatIsSpelled(run, s);
      if DecodeRun(run).Some? {
        ReadsWhatIsSpelled(run, DecodeRun(run).value);
      }
    }
    hide DecodeRun;
  }

  /** Without a closed run the wire reads as it stands. */
  lemma UnclosedStands(before: string, after: string)
    requires '&' !in before && '-' !in after
    ensures Decoded(before) == before && Decoded(before + ("&" + after)) == before + ("&" + after)
  {
    FindPast(before, SHIFT, after);
    DecodedWhole(before);
    DecodedWhole(before + ("&" + after));
  }

  /** The wire names the encoder writes, as a grammar a reader can check:
      direct characters, `&-`, and runs of shifted text no second run follows. */
  predicate Canonical(wire: string) {
    if wire == "" then true
    else if IsDirect(wire[0]) then Canonical(wire[1..])
    else if wire[0] != SHIFT then false
    else
      match Find(wire[1..], UNSHIFT)
      case None => false
      case Some(end) =>
        var run, rest := wire[1..][..end], wire[1..][end + 1..];
        Canonical(rest) && (run != "" ==> IsRun(run) && !OpensRun(rest))
  }

  predicate OpensRun(wire: string) {
    |wire| > 0 && wire[0] == SHIFT && (|wire| == 1 || wire[1] != UNSHIFT)
  }

  /** Only printable ASCII goes on the wire. */
  predicate Printable(s: string) {
    forall i :: 0 <= i < |s| ==> ' ' <= s[i] <= '~'
  }

  lemma ClosedPrintable(run: string, rest: string)
    requires Printable(run) && Printable(rest)
    ensures Printable(Closed("", run, rest))
  {
  }

  lemma {:induction false} EncodedPrintable(name: string)
    ensures Printable(Encoded(name))
    decreases |name|
  {
    if name == "" {
    } else if IsDirect(name[0]) {
      EncodedPrintable(name[1..]);
    } else if name[0] == SHIFT {
      EncodedPrintable(name[1..]);
      ClosedPrintable("", Encoded(name[1..]));
    } else {
      var n := RunLength(name);
      EncodedPrintable(name[n..]);
      Base64Symbols(RunBytes(name[..n]));
      hide RunBytes, Base64, RunLength, Closed;
      ClosedPrintable(Base64(RunBytes(name[..n])), Encoded(name[n..]));
    }
  }

  /** A closed run ahead of a name, as the grammar reads it. */
  lemma CanonicalRun(run: string, rest: string)
    requires forall i :: 0 <= i < |run| ==> run[i] != UNSHIFT
    ensures Canonical(Closed("", run, rest))
       <==> && Canonical(rest)
            && (run != "" ==>
                  DecodeRun(run).Some? && AllShifted(DecodeRun(run).value) && !OpensRun(rest))
    ensures OpensRun(Closed("", run, rest)) <==> run != ""
  {
    var wire := [SHIFT] + (run + ([UNSHIFT] + rest));
    Sequences.Empty(wire);
    Sequences.Parts([SHIFT], run + ([UNSHIFT] + rest));
    assert OpensRun(wire) <==> run != "" by {
      assert wire[1] == if run == "" then UNSHIFT else run[0];
    }
    FindPast(run, UNSHIFT, rest);
    if run != "" {
      RunReads(run);
    }
    hide DecodeRun, AllShifted, OpensRun, IsRun;
  }

  lemma {:induction false} EncodedCanonical(name: string)
    ensures Canonical(Encoded(name))
    ensures OpensRun(Encoded(name)) ==> name != "" && IsShifted(name[0])
    decreases |name|
  {
    hide Closed;
    if name == "" {
    } else if IsDirect(name[0]) {
      EncodedCanonical(name[1..]);
      Sequences.Parts([name[0]], Encoded(name[1..]));
    } else if name[0] == SHIFT {
      EncodedCanonical(name[1..]);
      CanonicalRun("", Encoded(name[1..]));
    } else {
      var n := RunLength(name);
      EncodedCanonical(name[n..]);
      if n < |name| { Sequences.Front(name, n); }
      DecodeRunOfShifted(name[..n]);
      hide RunBytes, Base64, RunLength, Canonical, DecodeRun;
      Base64Symbols(RunBytes(name[..n]));
      CanonicalRun(Base64(RunBytes(name[..n])), Encoded(name[n..]));
    }
  }

  /** A canonical name that opens with a shift is a closed run ahead of a name. */
  lemma CanonicalShape(wire: string) returns (run: string, rest: string)
    requires Canonical(wire) && wire != "" && !IsDirect(wire[0])
    ensures wire == Closed("", run, rest) && |rest| < |wire|
    ensures forall i :: 0 <= i < |run| ==> run[i] != UNSHIFT
  {
    var end := Find(wire[1..], UNSHIFT).value;
    run, rest := wire[1..][..end], wire[1..][end + 1..];
    hide Canonical;
    Sequences.Cons(wire);
    SplitAround(wire[1..], end);
    Sequences.Empty([SHIFT] + (run + ([UNSHIFT] + rest)));
  }

  lemma SplitAround(s: string, at: nat)
    requires at < |s|
    ensures s == s[..at] + ([s[at]] + s[at + 1..])
  {
  }

  lemma {:induction false} CanonicalReencodes(wire: string)
    requires Canonical(wire)
    ensures Encoded(Decoded(wire)) == wire
    ensures Decoded(wire) != "" && IsShifted(Decoded(wire)[0]) ==> OpensRun(wire)
    decreases |wire|
  {
    hide Closed;
    if wire == "" {
      DecodedWhole(wire);
    } else if IsDirect(wire[0]) {
      CanonicalReencodes(wire[1..]);
      DecodedDirect(wire[0], wire[1..]);
      hide Decoded;
      Sequences.Cons(wire);
      Sequences.Parts([wire[0]], Decoded(wire[1..]));
    } else {
      var run, rest := CanonicalShape(wire);
      CanonicalRun(run, rest);
      hide Canonical, Decoded;
      CanonicalReencodes(rest);
      DecodedRun(run, rest);
      if run == "" {
        Sequences.Parts([SHIFT], Decoded(rest));
      } else {
        hide Encoded, DecodeRun, RunText;
        ReencodedRun(run, rest);
      }
    }
  }

  lemma ReencodedRun(run: string, rest: string)
    requires run != "" && DecodeRun(run).Some? && AllShifted(DecodeRun(run).value)
    requires Encoded(Decoded(rest)) == rest
    requires Decoded(rest) != "" ==> !IsShifted(Decoded(rest)[0])
    ensures Encoded(RunText(run) + Decoded(rest)) == Closed("", run, rest)
  {
    var text := RunText(run);
    ShiftedOfDecodeRun(run);
    assert AllShifted(text) && text != "" && Base64(RunBytes(text)) == run;
    hide DecodeRun, RunText, RunBytes, Base64, Decoded, Closed;
    Sequences.Parts(text, Decoded(rest));
    RunLengthIs(text + Decoded(rest), |text|);
  }

  /** A name the server sent comes back as sent exactly when it is canonical:
      the codec is a bijection between names and canonical wire names. */
  lemma ReencodesExactlyCanonical(wire: string)
    ensures Encoded(Decoded(wire)) == wire <==> Canonical(wire)
  {
    EncodedCanonical(Decoded(wire));
    if Canonical(wire) {
      CanonicalReencodes(wire);
    }
  }
}

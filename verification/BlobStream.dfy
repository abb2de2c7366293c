/** A blob on its way from the server to its reader: windows read and decoded
    by a producer, a channel with room for three pieces, and a consumer that
    answers each piece once. Any of their steps interleave; the producer may
    fail at a read, or die, at any time. */
module BlobStream {
  import opened Wrappers
  import opened BlobDecode
  import Sequences

  const WINDOW := 512 * 1024
  const BUFFER_WINDOWS := 4
  const U32_MAX := 0xFFFF_FFFF

  datatype Error = NotFound | TooLarge | Unavailable | Undecodable | Store | Task

  /** What a stream hands on and a blob answers: bytes, the end of a whole
      blob, or what broke it off. */
  datatype Piece = Bytes(content: seq<Byte>) | Closing | Broken(error: Error)

  datatype Source = Source(body: seq<Byte>, limit: nat, encoding: Encoding)

  datatype Place = Place(offset: nat, carried: seq<Byte>)

  datatype Chunk = Chunk(place: Place, content: seq<Byte>, last: bool)

  /** One window off the wire; none past the limit or the offsets there are. */
  function Took(limit: nat, encoding: Encoding, place: Place, window: seq<Byte>): Option<Chunk> {
    var read := if |window| > U32_MAX then U32_MAX else |window|;
    var last := read < WINDOW;
    var offset := place.offset + read;
    if offset > U32_MAX || offset > limit then None
    else
      var (carried, content) := Pushed(encoding, place.carried, window, last);
      Some(Chunk(Place(offset, carried), content, last))
  }

  class Reader {
    const limit: nat
    const decoder: Decoder
    var offset: nat

    ghost function At(): Place
      reads this, decoder
    {
      Place(offset, decoder.carried)
    }

    constructor (limit: nat, encoding: Encoding)
      ensures this.limit == limit && decoder.encoding == encoding && At() == Place(0, [])
      ensures fresh(decoder)
    {
      this.limit, offset := limit, 0;
      decoder := new Decoder(encoding);
    }

    method TookWindow(window: seq<Byte>) returns (content: Option<seq<Byte>>, last: bool)
      modifies this, decoder
      ensures var took := Took(limit, decoder.encoding, old(At()), window);
        if took.Some? then took.value == Chunk(At(), if content.Some? then content.value else [], last) && content.Some?
        else content.None? && At() == old(At())
      ensures last <==> |window| < 524_288
      ensures |window| <= 4_294_967_295 ==>
        (content.None? <==> old(offset) + |window| > limit || old(offset) + |window| > 4_294_967_295)
      ensures |window| <= 4_294_967_295 && content.Some? ==> offset == old(offset) + |window|
    {
      var read := if |window| > U32_MAX then U32_MAX else |window|;
      last := read < WINDOW;
      if offset + read > U32_MAX || offset + read > limit {
        return None, last;
      }
      offset := offset + read;
      var pushed := decoder.Push(window, last);
      content := Some(pushed);
    }
  }

  // ---------------------------------------------------------------------
  // The steps
  // ---------------------------------------------------------------------

  /** Ahead of a read, with pieces in hand to send, or ended. */
  datatype Producer = Between | Sending(out: seq<Piece>, ends: bool) | Gone

  datatype State = State(
    source: Source,
    place: Place,
    producer: Producer,
    channel: seq<Piece>,
    first: Option<seq<Byte>>,
    reading: bool,
    dropped: bool,
    answers: seq<Piece>,
    failed: bool)

  function Min(a: nat, b: nat): nat {
    if a < b then a else b
  }

  /** What the server answers for the window at an offset; a fetch past the
      end is cut short. */
  function WindowAt(body: seq<Byte>, offset: nat): seq<Byte>
    requires offset <= |body|
  {
    body[offset..Min(offset + WINDOW, |body|)]
  }

  function Next(source: Source, place: Place): Option<Chunk>
    requires place.offset <= |source.body|
  {
    Took(source.limit, source.encoding, place, WindowAt(source.body, place.offset))
  }

  const START := Place(0, [])

  /** A blob opens with its first window in hand, the rest read ahead. */
  function Opened(source: Source): State
    requires Next(source, START).Some?
  {
    var chunk := Next(source, START).value;
    State(source, chunk.place, if chunk.last then Gone else Between, [],
      if chunk.content == [] then None else Some(chunk.content), !chunk.last, false, [], false)
  }

  datatype Event =
    | Read
    | ReadFails(error: Error)
    | Send
    | Stop
    | Die
    | Answer
    | Drop

  predicate Enabled(s: State, e: Event) {
    match e
    case Read => s.producer.Between? && s.reading && s.place.offset <= |s.source.body|
    case ReadFails(_) => s.producer.Between? && s.reading
    case Send => s.producer.Sending? && s.producer.out != [] && s.reading && |s.channel| < BUFFER_WINDOWS - 1
    case Stop => !s.producer.Gone? && !s.reading
    case Die => !s.producer.Gone?
    case Answer => !s.dropped && (s.first.Some? || !s.reading || s.channel != [] || s.producer.Gone?)
    case Drop => !s.dropped
  }

  function Pieces(content: seq<Byte>): seq<Piece> {
    if content == [] then [] else [Bytes(content)]
  }

  /** The producer once it has these pieces to send. */
  function Holding(out: seq<Piece>, ends: bool): Producer {
    if out != [] then Sending(out, ends) else if ends then Gone else Between
  }

  function ReadNext(s: State): State
    requires Enabled(s, Read)
  {
    var next := Next(s.source, s.place);
    if next.None? then s.(producer := Sending([Broken(TooLarge)], true))
    else
      var chunk := next.value;
      s.(
        place := chunk.place,
        producer := Holding(Pieces(chunk.content) + if chunk.last then [Closing] else [], chunk.last))
  }

  function AnswerNext(s: State): State
    requires Enabled(s, Answer)
  {
    if s.first.Some? then s.(first := None, answers := s.answers + [Bytes(s.first.value)])
    else if !s.reading then s.(answers := s.answers + [Closing])
    else if s.channel == [] then s.(answers := s.answers + [Broken(Task)], reading := false)
    else
      var piece := s.channel[0];
      if piece.Bytes? then s.(answers := s.answers + [piece], channel := s.channel[1..])
      else s.(answers := s.answers + [piece], channel := [], reading := false)
  }

  function Step(s: State, e: Event): State
    requires Enabled(s, e)
  {
    match e
    case Read => ReadNext(s)
    case ReadFails(error) => s.(producer := Sending([Broken(error)], true), failed := true)
    case Send =>
      s.(channel := s.channel + [s.producer.out[0]], producer := Holding(s.producer.out[1..], s.producer.ends))
    case Stop => s.(producer := Gone)
    case Die => s.(producer := Gone, failed := true)
    case Answer => AnswerNext(s)
    case Drop => s.(dropped := true, reading := false, first := None, channel := [])
  }

  // ---------------------------------------------------------------------
  // Pieces in order
  // ---------------------------------------------------------------------

  /** The bytes ahead of the first piece that is none. */
  function Content(pieces: seq<Piece>): seq<Byte>
    decreases |pieces|
  {
    if pieces == [] || !pieces[0].Bytes? then [] else pieces[0].content + Content(pieces[1..])
  }

  /** The first piece that is no bytes: how the blob ended. */
  function Verdict(pieces: seq<Piece>): Option<Piece>
    decreases |pieces|
  {
    if pieces == [] then None else if pieces[0].Bytes? then Verdict(pieces[1..]) else Some(pieces[0])
  }

  /** Behind the first piece that is no bytes stand only ends. */
  predicate Fused(pieces: seq<Piece>)
    decreases |pieces|
  {
    pieces == []
    || (if pieces[0].Bytes? then Fused(pieces[1..]) else forall i :: 1 <= i < |pieces| ==> pieces[i].Closing?)
  }

  lemma {:induction false} After(a: seq<Piece>, b: seq<Piece>)
    ensures Verdict(a).Some? ==> Verdict(a + b) == Verdict(a) && Content(a + b) == Content(a)
    ensures Verdict(a).None? ==> Verdict(a + b) == Verdict(b) && Content(a + b) == Content(a) + Content(b)
    ensures Verdict(a).None? ==> Fused(a + b) == Fused(b)
    decreases |a|
  {
    if a == [] {
      Sequences.Empty(b);
      Sequences.Empty(Content(b));
    } else {
      Sequences.Tail(a, b);
      After(a[1..], b);
      if a[0].Bytes? {
        Sequences.Assoc(a[0].content, Content(a[1..]), Content(b));
      }
    }
  }

  lemma {:induction false} OneMoreEnd(a: seq<Piece>)
    requires Fused(a) && Verdict(a).Some?
    ensures Fused(a + [Closing])
    decreases |a|
  {
    Sequences.Tail(a, [Closing]);
    if a[0].Bytes? {
      OneMoreEnd(a[1..]);
    }
  }

  // ---------------------------------------------------------------------
  // What every step keeps
  // ---------------------------------------------------------------------

  /** The whole body is read exactly when it is not past the limit, nor past
      the last offset there is. */
  predicate Fits(source: Source) {
    |source.body| <= source.limit && |source.body| <= U32_MAX
  }

  ghost predicate Decodes(source: Source) {
    Lawful(source.encoding) && (source.encoding.QuotedPrintable? ==> ShortLines(0, source.body))
  }

  function Decoded(source: Source): seq<Byte> {
    Whole(source.encoding, source.body)
  }

  function FirstOf(s: State): seq<Piece> {
    if s.first.Some? then [Bytes(s.first.value)] else []
  }

  function OutOf(s: State): seq<Piece> {
    if s.producer.Sending? then s.producer.out else []
  }

  /** Every piece of the blob so far: answered, in hand and on its way. */
  function Flow(s: State): seq<Piece> {
    s.answers + (FirstOf(s) + if s.reading then s.channel + OutOf(s) else [])
  }

  /** A blob that ended whole gave all its bytes; one that broke off did for a
      failure or for its size. */
  ghost predicate Sound(source: Source, failed: bool, pieces: seq<Piece>) {
    && Content(pieces) <= Decoded(source)
    && (Verdict(pieces) == Some(Closing) ==> Content(pieces) == Decoded(source) && Fits(source))
    && (Verdict(pieces).Some? && Verdict(pieces).value.Broken? && !failed ==>
          Verdict(pieces).value.error == TooLarge && !Fits(source))
  }

  /** What is still to be read continues what flowed. */
  ghost predicate GoesOn(s: State) {
    && Verdict(Flow(s)).None?
    && s.place.offset <= |s.source.body|
    && s.place.offset <= s.source.limit && s.place.offset <= U32_MAX
    && Carries(s.source.encoding, s.place.carried, s.source.body[s.place.offset..])
    && Content(Flow(s)) + Rest(s.source.encoding, s.place.carried, s.source.body[s.place.offset..]) == Decoded(s.source)
  }

  ghost predicate Inv(s: State) {
    && Decodes(s.source)
    && Sound(s.source, s.failed, Flow(s))
    && Fused(s.answers)
    && (s.first.Some? ==> s.answers == [])
    && (s.reading ==> Verdict(s.answers).None?)
    && (s.reading && !s.producer.Gone? ==> Verdict(s.channel).None?)
    && (s.reading && (s.producer.Between? || (s.producer.Sending? && !s.producer.ends)) ==> GoesOn(s))
    && (s.producer.Sending? ==>
          s.producer.out != [] && forall i :: 0 <= i < |s.producer.out| - 1 ==> s.producer.out[i].Bytes?)
    && (s.reading && s.producer.Sending? && s.producer.ends ==> Verdict(s.producer.out).Some?)
    && (s.reading && s.producer.Gone? ==> Verdict(Flow(s)).Some? || s.failed)
    && (!s.reading ==> s.channel == [])
    && (!s.reading && !s.dropped ==>
          Verdict(s.answers).Some?
          || (Verdict(Flow(s)).None? && Content(Flow(s)) == Decoded(s.source) && Fits(s.source)))
  }

  /** A window that is not refused carries the read on, or ends it with all
      the rest; a refused one tells that the body does not fit. */
  lemma NextReads(source: Source, place: Place)
    requires Decodes(source) && place.offset <= |source.body|
    requires place.offset <= source.limit && place.offset <= U32_MAX
    requires Carries(source.encoding, place.carried, source.body[place.offset..])
    ensures var rest := Rest(source.encoding, place.carried, source.body[place.offset..]);
      match Next(source, place)
      case None => !Fits(source)
      case Some(chunk) =>
        && place.offset <= chunk.place.offset <= |source.body|
        && chunk.place.offset <= source.limit && chunk.place.offset <= U32_MAX
        && (chunk.last ==> chunk.content == rest && Fits(source))
        && (!chunk.last ==>
              && chunk.place.offset == place.offset + WINDOW
              && Carries(source.encoding, chunk.place.carried, source.body[chunk.place.offset..])
              && chunk.content + Rest(source.encoding, chunk.place.carried, source.body[chunk.place.offset..]) == rest)
  {
    hide Pushed, Rest, Carries, ShortLines, Lawful;
    var window := WindowAt(source.body, place.offset);
    var next := place.offset + |window|;
    Sequences.Cut(source.body, place.offset, next);
    if |window| < WINDOW {
      PushEnds(source.encoding, place.carried, window);
      Sequences.Past(source.body, place.offset, next);
    } else {
      PushGoesOn(source.encoding, place.carried, window, source.body[next..]);
    }
  }

  lemma Alone(content: seq<Byte>)
    ensures Content(Pieces(content)) == content && Verdict(Pieces(content)).None?
  {
    if content != [] {
      var piece := [Bytes(content)];
      assert piece[1..] == [];
      Sequences.Empty(content);
    }
  }

  lemma FlowOn(s: State, t: State)
    requires s.reading && t.reading && t.answers == s.answers && t.first == s.first && t.channel == s.channel
    requires s.producer.Between?
    ensures Flow(t) == Flow(s) + OutOf(t)
  {
    Sequences.Empty(s.channel);
    Sequences.Assoc(FirstOf(s), s.channel, OutOf(t));
    Sequences.Assoc(s.answers, FirstOf(s) + s.channel, OutOf(t));
  }

  lemma PrefixOf<T>(a: seq<T>, b: seq<T>, whole: seq<T>)
    requires a + b == whole
    ensures a <= whole
  {
  }

  lemma ReadRefused(s: State)
    requires Inv(s) && Enabled(s, Read) && Next(s.source, s.place).None?
    ensures Inv(Step(s, Read))
  {
    var t := Step(s, Read);
    NextReads(s.source, s.place);
    hide Carries, Rest, Decodes, Decoded, Fits, Took;
    FlowOn(s, t);
    After(Flow(s), OutOf(t));
    Sequences.Empty(Content(Flow(s)));
    assert Content([Broken(TooLarge)]) == [];
  }

  lemma ReadLast(s: State)
    requires Inv(s) && Enabled(s, Read) && Next(s.source, s.place).Some? && Next(s.source, s.place).value.last
    ensures Inv(Step(s, Read))
  {
    var t := Step(s, Read);
    var content := Next(s.source, s.place).value.content;
    NextReads(s.source, s.place);
    hide Carries, Rest, Decodes, Decoded, Fits, Took;
    FlowOn(s, t);
    Alone(content);
    After(Pieces(content), [Closing]);
    Sequences.Empty(content);
    After(Flow(s), OutOf(t));
    assert OutOf(t) == Pieces(content) + [Closing];
    assert Content(OutOf(t)) == content;
  }

  lemma ReadMore(s: State)
    requires Inv(s) && Enabled(s, Read) && Next(s.source, s.place).Some? && !Next(s.source, s.place).value.last
    ensures Inv(Step(s, Read))
  {
    var t := Step(s, Read);
    var content := Next(s.source, s.place).value.content;
    NextReads(s.source, s.place);
    hide Carries, Rest, Decodes, Decoded, Fits, Took;
    FlowOn(s, t);
    Alone(content);
    Sequences.Empty(Pieces(content));
    After(Flow(s), OutOf(t));
    assert OutOf(t) == Pieces(content);
    var was := Content(Flow(s));
    var rest := Rest(s.source.encoding, t.place.carried, s.source.body[t.place.offset..]);
    Sequences.Assoc(was, content, rest);
    PrefixOf(was + content, rest, Decoded(s.source));
  }

  lemma FailKeeps(s: State, error: Error)
    requires Inv(s) && Enabled(s, ReadFails(error))
    ensures Inv(Step(s, ReadFails(error)))
  {
    var t := Step(s, ReadFails(error));
    hide Decodes, Decoded;
    FlowOn(s, t);
    After(Flow(s), OutOf(t));
    Sequences.Empty(Content(Flow(s)));
    assert Content([Broken(error)]) == [];
  }

  /** Sending, and answering what was sent, moves pieces along and changes
      neither their number nor their order. */
  lemma SendFlows(s: State)
    requires Enabled(s, Send)
    ensures Flow(Step(s, Send)) == Flow(s)
  {
    var out := s.producer.out;
    Sequences.Cons(out);
    Sequences.Assoc(s.channel, [out[0]], out[1..]);
  }

  lemma BytesAhead(out: seq<Piece>)
    requires out != [] && forall i :: 0 <= i < |out| - 1 ==> out[i].Bytes?
    ensures out[1..] != [] ==> Verdict([out[0]]).None? && Verdict(out[1..]) == Verdict(out)
    ensures out[1..] == [] ==> out == [out[0]]
  {
  }

  lemma FlowVerdict(s: State)
    requires s.reading && Verdict(s.answers).None? && Verdict(s.channel).None?
    ensures Verdict(Flow(s)) == Verdict(OutOf(s))
  {
    After(s.channel, OutOf(s));
    assert Verdict(FirstOf(s)).None?;
    After(FirstOf(s), s.channel + OutOf(s));
    After(s.answers, FirstOf(s) + (s.channel + OutOf(s)));
  }

  lemma SendKeeps(s: State)
    requires Inv(s) && Enabled(s, Send)
    ensures Inv(Step(s, Send))
  {
    var out := s.producer.out;
    hide Decodes, Decoded, Sound, Carries, Rest;
    SendFlows(s);
    FlowVerdict(s);
    BytesAhead(out);
    After(s.channel, [out[0]]);
    hide Flow;
  }

  lemma AnswerFirst(s: State)
    requires Inv(s) && Enabled(s, Answer) && s.first.Some?
    ensures Inv(Step(s, Answer))
  {
    var t := Step(s, Answer);
    var piece := [Bytes(s.first.value)];
    var tail := if s.reading then s.channel + OutOf(s) else [];
    hide Decodes, Decoded, Sound, Carries, Rest;
    Sequences.Empty(piece);
    Sequences.Empty(tail);
    Sequences.Empty(piece + tail);
    assert Flow(t) == Flow(s);
    assert Verdict(piece).None?;
    assert Fused(piece);
  }

  lemma AnswerEnd(s: State)
    requires Inv(s) && Enabled(s, Answer) && s.first.None? && !s.reading
    ensures Inv(Step(s, Answer))
  {
    var t := Step(s, Answer);
    hide Decodes, Decoded, Carries, Rest;
    Sequences.Empty(s.answers);
    Sequences.Empty(t.answers);
    assert Flow(s) == s.answers && Flow(t) == t.answers;
    After(s.answers, [Closing]);
    Sequences.Empty(Content(s.answers));
    if Verdict(s.answers).Some? {
      OneMoreEnd(s.answers);
    }
  }

  lemma AnswerDead(s: State)
    requires Inv(s) && Enabled(s, Answer) && s.first.None? && s.reading && s.channel == []
    ensures Inv(Step(s, Answer)) && s.failed
  {
    var t := Step(s, Answer);
    hide Decodes, Decoded, Carries, Rest;
    Sequences.Empty(s.answers);
    Sequences.Empty(t.answers);
    assert Flow(s) == s.answers && Flow(t) == t.answers;
    After(s.answers, [Broken(Task)]);
    Sequences.Empty(Content(s.answers));
  }

  lemma FlowFront(s: State)
    requires s.first.None? && s.reading && s.channel != []
    ensures Flow(s) == (s.answers + [s.channel[0]]) + (s.channel[1..] + OutOf(s))
  {
    Sequences.Cons(s.channel);
    Sequences.Empty(s.channel + OutOf(s));
    Sequences.Assoc([s.channel[0]], s.channel[1..], OutOf(s));
    Sequences.Assoc(s.answers, [s.channel[0]], s.channel[1..] + OutOf(s));
  }

  lemma AnswerBytes(s: State)
    requires Inv(s) && Enabled(s, Answer) && s.first.None? && s.reading && s.channel != [] && s.channel[0].Bytes?
    ensures Inv(Step(s, Answer))
  {
    var t := Step(s, Answer);
    FlowFront(s);
    After(s.answers, [s.channel[0]]);
    assert Verdict([s.channel[0]]).None? && Fused([s.channel[0]]);
    Sequences.Empty(s.channel[1..] + OutOf(s));
    assert Flow(t) == Flow(s);
    hide Flow, Decodes, Decoded, Carries, Rest, Sound;
  }

  lemma AnswerLast(s: State)
    requires Inv(s) && Enabled(s, Answer) && s.first.None? && s.reading && s.channel != [] && !s.channel[0].Bytes?
    ensures Inv(Step(s, Answer))
  {
    var t := Step(s, Answer);
    FlowFront(s);
    After(s.answers, [s.channel[0]]);
    After(t.answers, s.channel[1..] + OutOf(s));
    Sequences.Empty(t.answers);
    assert Flow(t) == t.answers;
    hide Flow, Decodes, Decoded, Carries, Rest, Sound;
    SameSound(s.source, s.failed, Flow(s), t.answers);
  }

  lemma SameSound(source: Source, failed: bool, a: seq<Piece>, b: seq<Piece>)
    requires Sound(source, failed, a) && Content(a) == Content(b) && Verdict(a) == Verdict(b)
    ensures Sound(source, failed, b)
  {
  }

  lemma SoundAhead(source: Source, failed: bool, a: seq<Piece>, b: seq<Piece>)
    requires Sound(source, failed, a + b)
    ensures Sound(source, true, a)
  {
    After(a, b);
    hide Decoded, Fits;
    if Verdict(a).None? {
      assert Content(a) <= Content(a) + Content(b);
    }
  }

  lemma FlowShrinks(s: State)
    requires s.reading && Enabled(s, Die)
    ensures Flow(s) == Flow(Step(s, Die)) + OutOf(s)
  {
    Sequences.Empty(s.channel);
    Sequences.Assoc(FirstOf(s), s.channel, OutOf(s));
    Sequences.Assoc(s.answers, FirstOf(s) + s.channel, OutOf(s));
  }

  /** A producer that dies takes along what it had in hand. */
  lemma DieKeeps(s: State)
    requires Inv(s) && Enabled(s, Die)
    ensures Inv(Step(s, Die))
  {
    var t := Step(s, Die);
    if s.reading {
      FlowShrinks(s);
      hide Decodes, Decoded, Carries, Rest, Flow, Sound;
      SoundAhead(s.source, s.failed, Flow(t), OutOf(s));
    } else {
      hide Decodes, Decoded, Carries, Rest;
      assert Flow(s) == Flow(t);
    }
  }

  lemma DropKeeps(s: State)
    requires Inv(s) && Enabled(s, Drop)
    ensures Inv(Step(s, Drop))
  {
    var t := Step(s, Drop);
    hide Decodes, Decoded, Carries, Rest;
    Sequences.Empty(s.answers);
    assert Flow(t) == s.answers;
    var tail := FirstOf(s) + if s.reading then s.channel + OutOf(s) else [];
    assert Flow(s) == s.answers + tail;
    After(s.answers, tail);
  }

  lemma StepKeeps(s: State, e: Event)
    requires Inv(s) && Enabled(s, e)
    ensures Inv(Step(s, e))
  {
    match e {
      case Read =>
        if Next(s.source, s.place).None? {
          ReadRefused(s);
        } else if Next(s.source, s.place).value.last {
          ReadLast(s);
        } else {
          ReadMore(s);
        }
      case ReadFails(error) => FailKeeps(s, error);
      case Send => SendKeeps(s);
      case Stop => assert Flow(Step(s, e)) == Flow(s);
      case Die => DieKeeps(s);
      case Answer =>
        if s.first.Some? {
          AnswerFirst(s);
        } else if !s.reading {
          AnswerEnd(s);
        } else if s.channel == [] {
          AnswerDead(s);
        } else if s.channel[0].Bytes? {
          AnswerBytes(s);
        } else {
          AnswerLast(s);
        }
      case Drop => DropKeeps(s);
    }
  }

  // ---------------------------------------------------------------------
  // Every run
  // ---------------------------------------------------------------------

  predicate Runs(s: State, events: seq<Event>)
    decreases |events|
  {
    events == [] || (Enabled(s, events[0]) && Runs(Step(s, events[0]), events[1..]))
  }

  function End(s: State, events: seq<Event>): State
    requires Runs(s, events)
    decreases |events|
  {
    if events == [] then s else End(Step(s, events[0]), events[1..])
  }

  lemma SourceStays(s: State, e: Event)
    requires Enabled(s, e)
    ensures Step(s, e).source == s.source
    ensures Step(s, e).failed == (s.failed || e.ReadFails? || e.Die?)
  {
  }

  lemma {:induction false} EveryRunFrom(s: State, events: seq<Event>)
    requires Inv(s) && Runs(s, events)
    ensures Inv(End(s, events)) && End(s, events).source == s.source
    ensures End(s, events).failed <==> s.failed || exists e :: e in events && (e.ReadFails? || e.Die?)
    decreases |events|
  {
    hide Inv;
    if events != [] {
      hide Step;
      StepKeeps(s, events[0]);
      SourceStays(s, events[0]);
      EveryRunFrom(Step(s, events[0]), events[1..]);
      Sequences.Cons(events);
      assert forall e :: e in events <==> e == events[0] || e in events[1..];
    }
  }

  /** A blob that opens keeps all of it; one refused at its first window does
      not fit. */
  lemma OpensKept(source: Source)
    requires Decodes(source)
    ensures Next(source, START).None? ==> !Fits(source)
    ensures Next(source, START).Some? ==> Inv(Opened(source))
  {
    Sequences.From0(source.body);
    RestOfAll(source.encoding, source.body);
    NextReads(source, START);
    hide Took, Carries, Rest, Decodes, Fits, Whole;
    if Next(source, START).Some? {
      OpenFlow(source);
      var s := Opened(source);
      hide Flow;
      if !Next(source, START).value.last {
        PrefixOf(Next(source, START).value.content,
          Rest(source.encoding, s.place.carried, source.body[s.place.offset..]), Decoded(source));
      }
    }
  }

  lemma OpenFlow(source: Source)
    requires Next(source, START).Some?
    ensures Content(Flow(Opened(source))) == Next(source, START).value.content
    ensures Verdict(Flow(Opened(source))).None?
  {
    var content := Next(source, START).value.content;
    Alone(content);
    hide Next;
    Sequences.Empty(Pieces(content));
    assert Flow(Opened(source)) == Pieces(content);
  }

  /** In every run of the producer, the channel and the reader: what is
      answered is always the beginning of the decoded body; an end with no
      error ahead of it comes behind all of it; an error that no failure
      explains is the size of a body that does not fit; and behind the first
      end or error nothing but ends is answered. */
  lemma EveryRun(source: Source, events: seq<Event>)
    requires Decodes(source) && Next(source, START).Some? && Runs(Opened(source), events)
    ensures var s := End(Opened(source), events);
      && Content(s.answers) <= Decoded(source)
      && (Verdict(s.answers) == Some(Closing) ==>
            Content(s.answers) == Decoded(source)
            && |source.body| <= source.limit && |source.body| <= 4_294_967_295)
      && Fused(s.answers)
      && (Verdict(s.answers).Some? && Verdict(s.answers).value.Broken?
          && (forall e :: e in events ==> !e.ReadFails? && !e.Die?) ==>
            Verdict(s.answers).value.error == TooLarge
            && (|source.body| > source.limit || |source.body| > 4_294_967_295))
  {
    OpensKept(source);
    var s := End(Opened(source), events);
    EveryRunFrom(Opened(source), events);
    AnswersSound(s);
  }

  lemma AnswersSound(s: State)
    requires Inv(s)
    ensures Sound(s.source, s.failed, s.answers)
  {
    var tail := FirstOf(s) + if s.reading then s.channel + OutOf(s) else [];
    After(s.answers, tail);
    hide Decoded, Fits;
    if Verdict(s.answers).None? {
      assert Content(s.answers) <= Content(s.answers) + Content(tail);
    }
  }

  /** A slow reader never holds more than three pieces of what was read ahead,
      and nothing but those three keeps a piece in hand from following. */
  lemma {:induction false} ReadsAheadWithin(s: State, events: seq<Event>)
    requires |s.channel| <= 3 && Runs(s, events)
    ensures var t := End(s, events);
      && |t.channel| <= 3
      && (t.reading && t.producer.Sending? && t.producer.out != [] ==> (Enabled(t, Send) <==> |t.channel| < 3))
    decreases |events|
  {
    if events != [] {
      ReadsAheadWithin(Step(s, events[0]), events[1..]);
    }
  }

  /** A failed read is told behind all that came before it, as the error it was. */
  lemma FailureTold(s: State, error: Error)
    requires Inv(s) && Enabled(s, ReadFails(error))
    ensures var t := Step(s, ReadFails(error));
      Verdict(Flow(t)) == Some(Broken(error)) && Content(Flow(t)) == Content(Flow(s))
  {
    var t := Step(s, ReadFails(error));
    hide Decodes, Decoded;
    FlowOn(s, t);
    After(Flow(s), OutOf(t));
    Sequences.Empty(Content(Flow(s)));
    assert Content([Broken(error)]) == [] && Verdict([Broken(error)]) == Some(Broken(error));
  }

  /** A producer that died ahead of its closing step leaves the reader with
      what it sent, and then with the error of an early end. */
  predicate Orphaned(s: State) {
    s.reading && s.producer.Gone? && Verdict(Flow(s)).None?
  }

  lemma OrphanEndsInTask(s: State, e: Event)
    requires Inv(s) && Orphaned(s) && Enabled(s, e) && !e.Drop?
    ensures e.Answer?
    ensures Orphaned(Step(s, e)) || Verdict(Step(s, e).answers) == Some(Broken(Task))
    ensures Orphaned(Step(s, e)) ==> Flow(Step(s, e)) == Flow(s)
  {
    var t := Step(s, e);
    if s.first.Some? {
      var piece := [Bytes(s.first.value)];
      Sequences.Empty(piece);
      Sequences.Empty(s.channel);
      assert Flow(t) == Flow(s);
    } else if s.channel == [] {
      After(s.answers, [Broken(Task)]);
    } else {
      Sequences.Cons(s.channel);
      Sequences.Empty(s.channel);
      Sequences.Empty(s.channel[1..]);
      After(s.answers, s.channel);
      Sequences.Assoc(s.answers, [s.channel[0]], s.channel[1..]);
    }
  }

  // ---------------------------------------------------------------------
  // The reads end
  // ---------------------------------------------------------------------

  function WindowsOf(length: nat, offset: nat): (windows: nat)
    requires offset <= length
    ensures windows > 0
  {
    (length - offset) / WINDOW + 1
  }

  /** What is left to do: windows to read, pieces to send and to answer. */
  function Left(s: State): nat
    requires s.place.offset <= |s.source.body|
  {
    (if s.producer.Between? || (s.producer.Sending? && !s.producer.ends)
     then 8 * WindowsOf(|s.source.body|, s.place.offset) else 0)
    + 2 * |OutOf(s)| + |s.channel| + |FirstOf(s)|
    + (if s.producer.Gone? then 0 else 1) + (if s.reading then 1 else 0) + if s.dropped then 0 else 1
  }

  lemma WindowsLeft(length: nat, offset: nat)
    requires offset + WINDOW <= length
    ensures WindowsOf(length, offset) == WindowsOf(length, offset + WINDOW) + 1
  {
  }

  /** How far a window moves the read. */
  lemma NextMoves(s: State)
    requires Inv(s) && Enabled(s, Read) && Next(s.source, s.place).Some?
    ensures var chunk := Next(s.source, s.place).value;
      && chunk.place.offset <= |s.source.body|
      && (!chunk.last ==>
            WindowsOf(|s.source.body|, s.place.offset) == WindowsOf(|s.source.body|, chunk.place.offset) + 1)
  {
    NextReads(s.source, s.place);
    hide Took, GoesOn, Decodes, Carries, Rest, Fits, WindowsOf, Flow, Sound;
    if !Next(s.source, s.place).value.last {
      WindowsLeft(|s.source.body|, s.place.offset);
    }
  }

  lemma ReadLess(s: State)
    requires Enabled(s, Read) && Inv(s)
    ensures Step(s, Read).place.offset <= |s.source.body| && Left(Step(s, Read)) < Left(s)
  {
    hide Inv, WindowsOf, Next;
    var next := Next(s.source, s.place);
    if next.Some? {
      NextMoves(s);
      assert |Pieces(next.value.content) + if next.value.last then [Closing] else []|
        <= if next.value.last then 2 else 1;
    }
  }

  /** Every step but an answer past the end leaves less to do. */
  lemma StepEnds(s: State, e: Event)
    requires Inv(s) && Enabled(s, e) && s.place.offset <= |s.source.body|
    requires !(e.Answer? && s.first.None? && !s.reading)
    ensures Step(s, e).place.offset <= |s.source.body| && Left(Step(s, e)) < Left(s)
  {
    hide Inv, WindowsOf;
    if e.Read? {
      ReadLess(s);
    }
  }

  /** Until the reader has its end or its error there is always a step to take
      that is no failure. */
  lemma NeverStuck(s: State)
    requires Inv(s) && !s.dropped && Verdict(s.answers).None?
    ensures Enabled(s, Read) || Enabled(s, Send) || Enabled(s, Answer)
  {
  }

  predicate Reads(e: Event) {
    e.Read? || e.Send? || e.Answer?
  }

  lemma ReadingStays(s: State, e: Event)
    requires Inv(s) && Enabled(s, e) && Reads(e)
    ensures Inv(Step(s, e)) && Step(s, e).source == s.source
    ensures Step(s, e).failed == s.failed && Step(s, e).dropped == s.dropped
    ensures e.Answer? && s.first.None? && !s.reading ==> Verdict(Step(s, e).answers).Some?
  {
    StepKeeps(s, e);
    SourceStays(s, e);
    hide Decoded, Fits, GoesOn, Sound;
    if e.Answer? {
      After(s.answers, [Closing]);
    }
  }

  lemma RunsOn(s: State, e: Event, more: seq<Event>)
    requires Enabled(s, e) && Runs(Step(s, e), more)
    ensures Runs(s, [e] + more) && End(s, [e] + more) == End(Step(s, e), more)
  {
    hide Enabled, Step;
    Sequences.Tail([e], more);
    Sequences.Empty(more);
    assert ([e] + more)[1..] == more;
  }

  lemma {:induction false} VerdictEnds(pieces: seq<Piece>)
    ensures Verdict(pieces).Some? ==> !Verdict(pieces).value.Bytes?
    decreases |pieces|
  {
    if pieces != [] {
      VerdictEnds(pieces[1..]);
    }
  }

  /** A reader that goes on asking has its end or its error. */
  lemma {:induction false} Ends(s: State) returns (events: seq<Event>)
    requires Inv(s) && !s.dropped && s.place.offset <= |s.source.body|
    ensures Runs(s, events) && forall e :: e in events ==> Reads(e)
    ensures Verdict(End(s, events).answers).Some?
    decreases Left(s)
  {
    if Verdict(s.answers).Some? {
      events := [];
    } else {
      NeverStuck(s);
      var e := if Enabled(s, Read) then Read else if Enabled(s, Send) then Send else Answer;
      var t := Step(s, e);
      ReadingStays(s, e);
      var more;
      if Verdict(t.answers).Some? {
        more := [];
      } else {
        StepEnds(s, e);
        hide Inv, Left, Enabled, Step;
        more := Ends(t);
      }
      hide Inv, Left, Step;
      RunsOn(s, e, more);
      events := [e] + more;
    }
  }

  /** A blob that opened can be read to its end with no failure, and then it is
      answered whole when its body fits and breaks off as too large when not. */
  lemma ReadsToTheEnd(source: Source) returns (events: seq<Event>)
    requires Decodes(source) && Next(source, START).Some?
    ensures Runs(Opened(source), events)
    ensures var answers := End(Opened(source), events).answers;
      if |source.body| <= source.limit && |source.body| <= 4_294_967_295 then
        Verdict(answers) == Some(Closing) && Content(answers) == Decoded(source)
      else Verdict(answers) == Some(Broken(TooLarge))
  {
    OpensKept(source);
    NextReads(source, START);
    events := Ends(Opened(source));
    assert forall e :: e in events ==> Reads(e) && !e.ReadFails? && !e.Die?;
    EveryRun(source, events);
    VerdictEnds(End(Opened(source), events).answers);
    hide Decoded, Runs, End, Next, Verdict, Content;
  }

  // ---------------------------------------------------------------------
  // The source's object
  // ---------------------------------------------------------------------

  /** The reader's side; `rest` says whether it still holds the receiver. */
  class Blob {
    var first: Option<seq<Byte>>
    var rest: bool

    constructor (first: seq<Byte>, rest: bool)
      ensures this.first == (if first == [] then None else Some(first)) && this.rest == rest
    {
      this.first := if first == [] then None else Some(first);
      this.rest := rest;
    }

    /** Whether the next answer waits on the channel. */
    predicate Receives()
      reads this
    {
      first.None? && rest
    }

    /** The next answer; `received` is what the channel gave, `None` once its
        sender is gone and nothing is left in it. */
    method Next(received: Option<Piece>, ghost s: State) returns (answer: Piece)
      requires s.first == first && s.reading == rest && Enabled(s, Answer)
      requires Receives() ==> received == if s.channel == [] then None else Some(s.channel[0])
      modifies this
      ensures var t := Step(s, Answer);
        first == t.first && rest == t.reading && t.answers == s.answers + [answer]
    {
      if first.Some? {
        answer := Bytes(first.value);
        first := None;
        return;
      }
      if !rest {
        return Closing;
      }
      answer := if received.Some? then received.value else Broken(Task);
      if !answer.Bytes? {
        rest := false;
      }
    }
  }
}

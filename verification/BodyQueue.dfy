/** The body fetches of every account: two in flight per lane, the rest in
    line, a bounded number of tries for one the limit refuses. A step between
    two awaits of the source is one method. */
module BodyQueue {
  import Sequences

  const IN_FLIGHT: nat := 2
  const TRIES: nat := 5

  /** One fetch: its place in the order asked and the attempts begun. */
  datatype Fetch = Fetch(id: nat, tries: nat)

  /** How an attempt ended; `Limit` is the refusal time lifts. */
  datatype Answer = Value | Failure | Limit

  datatype Outcome = Landed | Refused | Abandoned

  datatype Settled = Settled(fetch: Fetch, outcome: Outcome)

  /** A lane with what the source holds in closures: the fetches out, the
      answers given and how many fetches were asked. A fetch is named by its
      place in that order. */
  datatype State = State(
    out: seq<Fetch>, waiting: seq<Fetch>, paused: bool, stopped: bool, settled: seq<Settled>, asked: nat)

  const EMPTY := State([], [], false, false, [], 0)

  // ---------------------------------------------------------------------
  // The steps of a lane
  // ---------------------------------------------------------------------

  function Begun(fetch: Fetch): Fetch {
    fetch.(tries := fetch.tries + 1)
  }

  function Without<T>(s: seq<T>, k: nat): seq<T>
    requires k < |s|
  {
    s[..k] + s[k + 1..]
  }

  function Started(l: State): State
    requires l.waiting != []
  {
    l.(waiting := l.waiting[1..], out := l.out + [Begun(l.waiting[0])])
  }

  function Drained(l: State): State
    decreases |l.waiting|
  {
    if l.paused || |l.out| >= IN_FLIGHT || l.waiting == [] then l else Drained(Started(l))
  }

  function Queued(l: State): State {
    l.(waiting := l.waiting + [Fetch(l.asked, 0)], asked := l.asked + 1)
  }

  function Settling(l: State, fetch: Fetch, outcome: Outcome): State {
    l.(settled := l.settled + [Settled(fetch, outcome)])
  }

  /** The fetch goes back to the head of its line and the lane waits. */
  function Retried(l: State, fetch: Fetch): State {
    if l.stopped then Settling(l, fetch, Abandoned)
    else l.(waiting := [fetch] + l.waiting, paused := true)
  }

  /** What an ended attempt leaves before the lane sends more. */
  function Ended(l: State, k: nat, answer: Answer): State
    requires k < |l.out|
  {
    var fetch, rest := l.out[k], l.(out := Without(l.out, k));
    match answer
    case Value => Settling(rest, fetch, Landed)
    case Failure => Settling(rest, fetch, Refused)
    case Limit => if fetch.tries < TRIES then Retried(rest, fetch) else Settling(rest, fetch, Refused)
  }

  function AbandonedAll(waiting: seq<Fetch>): (settled: seq<Settled>) {
    if waiting == [] then [] else [Settled(waiting[0], Abandoned)] + AbandonedAll(waiting[1..])
  }

  function Stopped(l: State): State {
    l.(stopped := true, paused := false, waiting := [], settled := l.settled + AbandonedAll(l.waiting))
  }

  datatype Event = Ask | End(k: nat, answer: Answer) | PauseOver | Stop

  /** A stopped lane left the map, so nobody asks it again. */
  predicate Enabled(l: State, e: Event) {
    match e
    case Ask => !l.stopped
    case End(k, _) => k < |l.out|
    case PauseOver => l.paused
    case Stop => !l.stopped
  }

  function Step(l: State, e: Event): State
    requires Enabled(l, e)
  {
    match e
    case Ask => Drained(Queued(l))
    case End(k, answer) => Drained(Ended(l, k, answer))
    case PauseOver => Drained(l.(paused := false))
    case Stop => Stopped(l)
  }

  // ---------------------------------------------------------------------
  // What every step keeps
  // ---------------------------------------------------------------------

  /** How many fetches at the head of the line were tried before. */
  function Tried(line: seq<Fetch>): (n: nat) {
    if line == [] || line[0].tries == 0 then 0 else 1 + Tried(line[1..])
  }

  /** Fresh fetches in the order asked, all asked before `below`. */
  predicate FreshLine(line: seq<Fetch>, below: nat) {
    line == []
    || (line[0].tries == 0 && line[0].id < (if |line| > 1 then line[1].id else below) && FreshLine(line[1..], below))
  }

  /** Tried fetches, each with a try left, ahead of fresh ones. */
  predicate Line(line: seq<Fetch>, below: nat) {
    if line != [] && line[0].tries > 0 then line[0].tries < TRIES && Line(line[1..], below)
    else FreshLine(line, below)
  }

  predicate Begins(out: seq<Fetch>) {
    forall i :: 0 <= i < |out| ==> 1 <= out[i].tries <= TRIES
  }

  predicate Bounded(settled: seq<Settled>) {
    forall i :: 0 <= i < |settled| ==> settled[i].fetch.tries <= TRIES
  }

  /** Two in flight at most, a fetch to retry keeping its slot; the line in
      order; the tries bounded; a stopped lane empty. */
  predicate Shaped(l: State) {
    && |l.out| + Tried(l.waiting) <= IN_FLIGHT
    && Begins(l.out) && Line(l.waiting, l.asked) && Bounded(l.settled)
    && (l.stopped ==> l.waiting == [] && !l.paused)
    && (l.paused ==> Tried(l.waiting) > 0)
  }

  /** No lost wake-up: a line that waits waits for a pause or a full lane. */
  predicate Awake(l: State) {
    l.waiting != [] ==> l.paused || |l.out| == IN_FLIGHT
  }

  function Count(fetches: seq<Fetch>, id: nat): nat {
    if fetches == [] then 0 else (if fetches[0].id == id then 1 else 0) + Count(fetches[1..], id)
  }

  function CountSettled(settled: seq<Settled>, id: nat): nat {
    if settled == [] then 0 else (if settled[0].fetch.id == id then 1 else 0) + CountSettled(settled[1..], id)
  }

  /** The places a fetch stands at: out, in line and settled together. */
  function Places(l: State, id: nat): nat {
    Count(l.out, id) + Count(l.waiting, id) + CountSettled(l.settled, id)
  }

  /** Each fetch asked stands at one place, any other at none. */
  ghost predicate Conserved(l: State) {
    forall id: nat :: Places(l, id) == if id < l.asked then 1 else 0
  }

  ghost predicate Inv(l: State) {
    Shaped(l) && Awake(l) && Conserved(l)
  }

  lemma {:induction false} CountThen(a: seq<Fetch>, b: seq<Fetch>, id: nat)
    ensures Count(a + b, id) == Count(a, id) + Count(b, id)
  {
    if a == [] {
      Sequences.Empty(b);
    } else {
      Sequences.Tail(a, b);
      CountThen(a[1..], b, id);
    }
  }

  lemma {:induction false} CountSettledThen(a: seq<Settled>, b: seq<Settled>, id: nat)
    ensures CountSettled(a + b, id) == CountSettled(a, id) + CountSettled(b, id)
  {
    if a == [] {
      Sequences.Empty(b);
    } else {
      Sequences.Tail(a, b);
      CountSettledThen(a[1..], b, id);
    }
  }

  lemma CountOne(fetch: Fetch, id: nat)
    ensures Count([fetch], id) == if fetch.id == id then 1 else 0
    ensures CountSettled([Settled(fetch, Landed)], id) == if fetch.id == id then 1 else 0
  {
  }

  lemma CountWithout(s: seq<Fetch>, k: nat, id: nat)
    requires k < |s|
    ensures Count(s, id) == Count(Without(s, k), id) + if s[k].id == id then 1 else 0
  {
    Sequences.Split(s, k);
    Sequences.Front(s, k);
    CountThen(s[..k], s[k..], id);
    CountThen(s[..k], s[k + 1..], id);
  }

  lemma {:induction false} CountAbandoned(waiting: seq<Fetch>, id: nat)
    ensures CountSettled(AbandonedAll(waiting), id) == Count(waiting, id)
  {
    if waiting != [] {
      CountAbandoned(waiting[1..], id);
      Sequences.Parts([Settled(waiting[0], Abandoned)], AbandonedAll(waiting[1..]));
    }
  }

  /** Starting the head of the line moves one fetch and nothing else. */
  lemma StartPlaces(l: State, id: nat)
    requires l.waiting != []
    ensures Places(Started(l), id) == Places(l, id)
  {
    CountThen(l.out, [Begun(l.waiting[0])], id);
    CountOne(Begun(l.waiting[0]), id);
  }

  lemma BeginsThen(out: seq<Fetch>, fetch: Fetch)
    requires Begins(out) && 1 <= fetch.tries <= TRIES
    ensures Begins(out + [fetch])
  {
  }

  lemma StartShapes(l: State)
    requires Shaped(l) && !l.paused && |l.out| < IN_FLIGHT && l.waiting != []
    ensures Shaped(Started(l))
  {
    BeginsThen(l.out, Begun(l.waiting[0]));
    hide Begins, Bounded;
    LineTail(l.waiting, l.asked);
  }

  lemma FreshIsLine(line: seq<Fetch>, below: nat)
    requires FreshLine(line, below)
    ensures Line(line, below) && Tried(line) == 0
  {
  }

  lemma LineTail(line: seq<Fetch>, below: nat)
    requires line != [] && Line(line, below)
    ensures Line(line[1..], below)
    ensures Tried(line[1..]) == if line[0].tries > 0 then Tried(line) - 1 else 0
  {
    if line[0].tries == 0 {
      FreshIsLine(line[1..], below);
    }
  }

  lemma {:induction false} DrainKeeps(l: State)
    requires Shaped(l) && Conserved(l)
    ensures Inv(Drained(l))
    decreases |l.waiting|
  {
    if !l.paused && |l.out| < IN_FLIGHT && l.waiting != [] {
      StartShapes(l);
      forall id: nat
        ensures Places(Started(l), id) == Places(l, id)
      {
        StartPlaces(l, id);
      }
      DrainKeeps(Started(l));
      hide Shaped, Places;
    }
  }

  lemma {:induction false} LineThen(line: seq<Fetch>, asked: nat)
    requires Line(line, asked)
    ensures Line(line + [Fetch(asked, 0)], asked + 1)
    ensures Tried(line + [Fetch(asked, 0)]) == Tried(line)
  {
    if line == [] {
      Sequences.Empty([Fetch(asked, 0)]);
    } else if line[0].tries > 0 {
      Sequences.Tail(line, [Fetch(asked, 0)]);
      LineThen(line[1..], asked);
    } else {
      Sequences.Tail(line, [Fetch(asked, 0)]);
      FreshThen(line, asked);
    }
  }

  lemma {:induction false} FreshThen(line: seq<Fetch>, asked: nat)
    requires FreshLine(line, asked)
    ensures FreshLine(line + [Fetch(asked, 0)], asked + 1)
  {
    if line == [] {
      Sequences.Empty([Fetch(asked, 0)]);
    } else {
      Sequences.Tail(line, [Fetch(asked, 0)]);
      FreshThen(line[1..], asked);
    }
  }

  lemma QueueKeeps(l: State)
    requires Inv(l) && !l.stopped
    ensures Shaped(Queued(l)) && Conserved(Queued(l))
  {
    LineThen(l.waiting, l.asked);
    forall id: nat
      ensures Places(Queued(l), id) == if id < l.asked + 1 then 1 else 0
    {
      CountThen(l.waiting, [Fetch(l.asked, 0)], id);
      CountOne(Fetch(l.asked, 0), id);
      assert Places(l, id) == if id < l.asked then 1 else 0;
    }
    hide Line, Begins, Bounded;
  }

  lemma SettlePlaces(l: State, fetch: Fetch, outcome: Outcome, id: nat)
    ensures Places(Settling(l, fetch, outcome), id) == Places(l, id) + if fetch.id == id then 1 else 0
  {
    CountSettledThen(l.settled, [Settled(fetch, outcome)], id);
    assert CountSettled([Settled(fetch, outcome)], id) == if fetch.id == id then 1 else 0;
  }

  lemma RetryPlaces(l: State, fetch: Fetch, id: nat)
    ensures Places(Retried(l, fetch), id) == Places(l, id) + if fetch.id == id then 1 else 0
  {
    SettlePlaces(l, fetch, Abandoned, id);
    CountThen([fetch], l.waiting, id);
    CountOne(fetch, id);
    hide Settling;
  }

  lemma EndPlaces(l: State, k: nat, answer: Answer, id: nat)
    requires k < |l.out|
    ensures Places(Ended(l, k, answer), id) == Places(l, id)
  {
    var fetch, rest := l.out[k], l.(out := Without(l.out, k));
    CountWithout(l.out, k, id);
    assert Places(l, id) == Places(rest, id) + if fetch.id == id then 1 else 0;
    SettlePlaces(rest, fetch, Landed, id);
    SettlePlaces(rest, fetch, Refused, id);
    RetryPlaces(rest, fetch, id);
    hide Places, Without, Settling, Retried;
  }

  lemma EndShapes(l: State, k: nat, answer: Answer)
    requires Shaped(l) && k < |l.out|
    ensures Shaped(Ended(l, k, answer))
  {
    var fetch := l.out[k];
    assert Begins(Without(l.out, k)) && |Without(l.out, k)| == |l.out| - 1;
    var settled := Ended(l, k, answer).settled;
    assert Bounded(settled);
    hide Begins, Bounded, Without;
    Sequences.Parts([fetch], l.waiting);
  }

  lemma StopKeeps(l: State)
    requires Inv(l)
    ensures Inv(Stopped(l))
  {
    AbandonedBounded(l.waiting, l.asked);
    assert Bounded(l.settled + AbandonedAll(l.waiting));
    forall id: nat
      ensures Places(Stopped(l), id) == Places(l, id)
    {
      CountAbandoned(l.waiting, id);
      CountSettledThen(l.settled, AbandonedAll(l.waiting), id);
    }
    hide Bounded, Begins, Places;
  }

  lemma {:induction false} AbandonedBounded(waiting: seq<Fetch>, below: nat)
    requires Line(waiting, below)
    ensures Bounded(AbandonedAll(waiting))
  {
    if waiting != [] {
      LineTail(waiting, below);
      AbandonedBounded(waiting[1..], below);
    }
  }

  lemma StepKeeps(l: State, e: Event)
    requires Inv(l) && Enabled(l, e)
    ensures Inv(Step(l, e))
  {
    match e {
      case Ask =>
        QueueKeeps(l);
        DrainKeeps(Queued(l));
      case End(k, answer) =>
        EndShapes(l, k, answer);
        forall id: nat
          ensures Places(Ended(l, k, answer), id) == Places(l, id)
        {
          EndPlaces(l, k, answer, id);
        }
        hide Places, Shaped;
        assert Ended(l, k, answer).asked == l.asked;
        DrainKeeps(Ended(l, k, answer));
      case PauseOver =>
        assert forall id: nat :: Places(l.(paused := false), id) == Places(l, id);
        DrainKeeps(l.(paused := false));
      case Stop =>
        StopKeeps(l);
    }
  }

  // ---------------------------------------------------------------------
  // Every run
  // ---------------------------------------------------------------------

  /** The most steps other than asks the fetches can still cause. */
  function Left(fetches: seq<Fetch>, out: bool): nat {
    if fetches == [] then 0 else Cost(fetches[0], out) + Left(fetches[1..], out)
  }

  function Cost(fetch: Fetch, out: bool): nat {
    (if fetch.tries <= TRIES then 3 * (TRIES - fetch.tries) else 0) + if out then 2 else 0
  }

  function Measure(l: State): nat {
    Left(l.out, true) + Left(l.waiting, false) + (if l.paused then 1 else 0) + (if l.stopped then 0 else 1)
  }

  lemma {:induction false} LeftThen(a: seq<Fetch>, b: seq<Fetch>, out: bool)
    ensures Left(a + b, out) == Left(a, out) + Left(b, out)
  {
    if a == [] {
      Sequences.Empty(b);
    } else {
      Sequences.Tail(a, b);
      LeftThen(a[1..], b, out);
      hide Cost;
    }
  }

  lemma LeftWithout(s: seq<Fetch>, k: nat, out: bool)
    requires k < |s|
    ensures Left(s, out) == Left(Without(s, k), out) + Cost(s[k], out)
  {
    hide Cost;
    Sequences.Split(s, k);
    Sequences.Front(s, k);
    LeftThen(s[..k], s[k..], out);
    LeftThen(s[..k], s[k + 1..], out);
  }

  lemma {:induction false} DrainMeasure(l: State)
    requires Shaped(l)
    ensures Measure(Drained(l)) <= Measure(l)
    decreases |l.waiting|
  {
    if !l.paused && |l.out| < IN_FLIGHT && l.waiting != [] {
      StartShapes(l);
      LeftThen(l.out, [Begun(l.waiting[0])], true);
      assert l.waiting[0].tries < TRIES;
      assert Measure(Started(l)) <= Measure(l);
      DrainMeasure(Started(l));
    }
  }

  lemma EndMeasure(l: State, k: nat, answer: Answer)
    requires Shaped(l) && k < |l.out|
    ensures Measure(Ended(l, k, answer)) < Measure(l)
  {
    LeftWithout(l.out, k, true);
    LeftThen([l.out[k]], l.waiting, false);
    hide Without;
  }

  /** Every step but an ask brings the lane closer to rest; an ask costs no
      more than its tries. */
  lemma StepMeasure(l: State, e: Event)
    requires Inv(l) && Enabled(l, e)
    ensures Measure(Step(l, e)) <= Measure(l) + if e.Ask? then 3 * TRIES else -1
  {
    match e {
      case Ask =>
        QueueKeeps(l);
        LeftThen(l.waiting, [Fetch(l.asked, 0)], false);
        DrainMeasure(Queued(l));
      case End(k, answer) =>
        EndShapes(l, k, answer);
        EndMeasure(l, k, answer);
        DrainMeasure(Ended(l, k, answer));
        hide Measure, Ended;
      case PauseOver =>
        DrainMeasure(l.(paused := false));
      case Stop =>
    }
  }

  /** The states a lane reaches by a run of events. */
  ghost predicate Reaches(events: seq<Event>, l: State) {
    if events == [] then l == EMPTY
    else
      var last := events[|events| - 1];
      exists before :: Reaches(events[..|events| - 1], before) && Enabled(before, last) && l == Step(before, last)
  }

  function Asks(events: seq<Event>): nat {
    if events == [] then 0
    else Asks(events[..|events| - 1]) + if events[|events| - 1].Ask? then 1 else 0
  }

  /** Over every run of asks, answers, limit refusals, pauses and a stop: the
      invariant holds, and the run is no longer than its asks allow. */
  lemma {:induction false} EveryRun(events: seq<Event>, l: State)
    requires Reaches(events, l)
    ensures Inv(l)
    ensures |events| + Measure(l) <= (3 * TRIES + 1) * Asks(events) + 1
  {
    if events != [] {
      var earlier, last := events[..|events| - 1], events[|events| - 1];
      var before :| Reaches(earlier, before) && Enabled(before, last) && l == Step(before, last);
      EveryRun(earlier, before);
      StepKeeps(before, last);
      StepMeasure(before, last);
      hide Inv, Measure, Step;
    }
  }

  /** What a caller is promised: its fetch stands at one place, so it settles
      at most once, and it is begun at most five times wherever it stands. */
  lemma FetchSettlesOnce(events: seq<Event>, l: State, id: nat)
    requires Reaches(events, l) && id < l.asked
    ensures Count(l.out, id) + Count(l.waiting, id) + CountSettled(l.settled, id) == 1
    ensures forall fetch :: (fetch in l.out || fetch in l.waiting) ==> fetch.tries <= 5
    ensures forall answer :: answer in l.settled ==> answer.fetch.tries <= 5
    ensures |l.out| <= 2 && (l.waiting != [] ==> l.paused || |l.out| == 2)
  {
    EveryRun(events, l);
    assert Places(l, id) == 1;
    LineBounded(l.waiting, l.asked);
  }

  /** The line as a reader sees it: the first `Tried` fetches have a try
      behind and one left, the rest none behind and stand in the order asked. */
  lemma {:induction false} LineBounded(line: seq<Fetch>, below: nat)
    requires Line(line, below)
    ensures Tried(line) <= |line|
    ensures forall i :: 0 <= i < Tried(line) ==> 0 < line[i].tries < TRIES
    ensures forall i :: Tried(line) <= i < |line| ==> line[i].tries == 0 && line[i].id < below
    ensures forall i, j :: Tried(line) <= i < j < |line| ==> line[i].id < line[j].id
  {
    if line != [] {
      LineTail(line, below);
      LineBounded(line[1..], below);
      Sequences.Cons(line);
      if line[0].tries == 0 && |line| > 1 {
        assert Tried(line[1..]) == 0;
        assert line[0].id < line[1..][0].id;
      }
    }
  }

  // ---------------------------------------------------------------------
  // What each step does, fetch by fetch
  // ---------------------------------------------------------------------

  /** With these fetches out and in line, a lane that is not paused sends from
      the head of the line while fewer than two are out, one more try each. */
  predicate Sends(out: seq<Fetch>, line: seq<Fetch>, paused: bool, t: State) {
    var n := if paused || |out| >= 2 then 0 else if |line| < 2 - |out| then |line| else 2 - |out|;
    && t.waiting == line[n..]
    && |t.out| == |out| + n && t.out[..|out|] == out
    && forall i :: 0 <= i < n ==> t.out[|out| + i] == Fetch(line[i].id, line[i].tries + 1)
  }

  lemma DrainSends(l: State)
    ensures var t := Drained(l);
      Sends(l.out, l.waiting, l.paused, t) && t == l.(out := t.out, waiting := t.waiting)
  {
    Sequences.Ends(l.out);
    Sequences.From0(l.waiting);
    if !l.paused && |l.out| < IN_FLIGHT && l.waiting != [] {
      var one := Started(l);
      Sequences.Parts(l.out, [Begun(l.waiting[0])]);
      if |one.out| < IN_FLIGHT && one.waiting != [] {
        var two := Started(one);
        Sequences.Assoc(l.out, [Begun(l.waiting[0])], [Begun(one.waiting[0])]);
        Sequences.Parts(l.out, [Begun(l.waiting[0])] + [Begun(one.waiting[0])]);
        assert Drained(two) == two;
        assert Drained(one) == two;
      } else {
        assert Drained(one) == one;
      }
    }
  }

  /** A fetch asked joins the end of the line. */
  lemma AskSends(l: State)
    requires Enabled(l, Ask)
    ensures var t := Step(l, Ask);
      && Sends(l.out, l.waiting + [Fetch(l.asked, 0)], l.paused, t)
      && t == l.(out := t.out, waiting := t.waiting, asked := l.asked + 1)
  {
    DrainSends(Queued(l));
  }

  /** How an attempt settles its fetch: its value lands, a failure is refused,
      and so is the fifth refusal for the limit; an earlier one goes back to
      the head of the line and pauses the lane, or is given up by a lane that
      stopped. */
  lemma EndSettles(l: State, k: nat, answer: Answer)
    requires k < |l.out|
    ensures var t, fetch, rest := Step(l, End(k, answer)), l.out[k], l.out[..k] + l.out[k + 1..];
      if answer == Limit && fetch.tries < 5 && !l.stopped then
        && Sends(rest, [fetch] + l.waiting, true, t)
        && t == l.(out := t.out, waiting := t.waiting, paused := true)
      else
        var outcome := match answer
          case Value => Landed
          case Failure => Refused
          case Limit => if fetch.tries < 5 then Abandoned else Refused;
        && Sends(rest, l.waiting, l.paused, t)
        && t == l.(out := t.out, waiting := t.waiting, settled := l.settled + [Settled(fetch, outcome)])
  {
    DrainSends(Ended(l, k, answer));
    hide Drained, Sends;
  }

  lemma PauseSends(l: State)
    requires l.paused
    ensures var t := Step(l, PauseOver);
      Sends(l.out, l.waiting, false, t) && t == l.(out := t.out, waiting := t.waiting, paused := false)
  {
    DrainSends(l.(paused := false));
  }

  /** A stop gives up the fetches in line, in their order, and leaves the ones
      out to their answers. */
  lemma StopAbandons(l: State)
    requires !l.stopped
    ensures var t := Step(l, Stop);
      && t == l.(stopped := true, paused := false, waiting := [], settled := t.settled)
      && |t.settled| == |l.settled| + |l.waiting| && t.settled[..|l.settled|] == l.settled
      && forall i :: 0 <= i < |l.waiting| ==> t.settled[|l.settled| + i] == Settled(l.waiting[i], Abandoned)
  {
    AbandonedEach(l.waiting);
    hide AbandonedAll;
    Sequences.Parts(l.settled, AbandonedAll(l.waiting));
  }

  lemma {:induction false} AbandonedEach(waiting: seq<Fetch>)
    ensures |AbandonedAll(waiting)| == |waiting|
    ensures forall i :: 0 <= i < |waiting| ==> AbandonedAll(waiting)[i] == Settled(waiting[i], Abandoned)
  {
    if waiting != [] {
      AbandonedEach(waiting[1..]);
    }
  }

  // ---------------------------------------------------------------------
  // The source's objects
  // ---------------------------------------------------------------------

  class Lane {
    var running: nat
    var waiting: seq<Fetch>
    var pause: bool
    var stopped: bool
    var asked: nat
    ghost var out: seq<Fetch>
    ghost var settled: seq<Settled>

    ghost function Now(): State
      reads this
    {
      State(out, waiting, pause, stopped, settled, asked)
    }

    ghost predicate Valid()
      reads this
    {
      running == |out| && Inv(Now())
    }

    predicate Idle()
      reads this
    {
      running == 0 && waiting == [] && !pause
    }

    constructor ()
      ensures Valid() && Now() == EMPTY
      ensures running == 0 && waiting == [] && !pause && !stopped && settled == []
    {
      running, waiting, pause, stopped, asked := 0, [], false, false, 0;
      out, settled := [], [];
    }

    method Drain()
      requires running == |out|
      modifies this
      ensures running == |out| && Now() == Drained(old(Now()))
    {
      while !pause && running < IN_FLIGHT
        invariant running == |out| && Drained(Now()) == Drained(old(Now()))
        decreases |waiting|
      {
        if waiting == [] {
          break;
        }
        var next := waiting[0];
        waiting := waiting[1..];
        running := running + 1;
        out := out + [Begun(next)];
      }
    }

    /** The attempt's fetch goes back to the head of its line. */
    method Retry(fetch: Fetch)
      modifies this
      ensures running == old(running) && Now() == Retried(old(Now()), fetch)
    {
      if stopped {
        settled := settled + [Settled(fetch, Abandoned)];
        return;
      }
      waiting := [fetch] + waiting;
      pause := true;
    }

    /** What follows an attempt: the fetch settles or goes back to its line. */
    method Finish(ghost k: nat, fetch: Fetch, answer: Answer)
      requires Valid() && k < |out| && fetch == out[k]
      modifies this
      ensures Valid() && Now() == Step(old(Now()), End(k, answer))
    {
      StepKeeps(Now(), End(k, answer));
      hide Inv;
      ghost var ended := Ended(Now(), k, answer);
      out := Without(out, k);
      running := running - 1;
      hide Without;
      if answer == Limit && fetch.tries < TRIES {
        Retry(fetch);
      } else {
        settled := settled + [Settled(fetch, if answer == Value then Landed else Refused)];
      }
      assert Now() == ended;
      hide Ended;
      Drain();
    }

    method Push()
      requires Valid() && !stopped
      modifies this
      ensures Valid() && !stopped && !Idle() && Now() == Step(old(Now()), Ask)
    {
      StepKeeps(Now(), Ask);
      AskBusy(Now());
      hide Inv;
      waiting := waiting + [Fetch(asked, 0)];
      asked := asked + 1;
      Drain();
    }

    method Resume()
      requires Valid() && pause
      modifies this
      ensures Valid() && stopped == old(stopped) && Now() == Step(old(Now()), PauseOver)
    {
      StepKeeps(Now(), PauseOver);
      StoppedStays(Now(), PauseOver);
      hide Inv;
      pause := false;
      Drain();
    }

    method Halt()
      requires Valid() && !stopped
      modifies this
      ensures Valid() && stopped && Now() == Step(old(Now()), Stop)
    {
      StepKeeps(Now(), Stop);
      hide Inv;
      stopped := true;
      if pause {
        pause := false;
      }
      settled := settled + AbandonedAll(waiting);
      waiting := [];
    }
  }

  class Queue {
    var lanes: map<string, Lane>
    ghost var all: set<Lane>

    /** The map holds running lanes, one to an account. */
    ghost predicate Mapped()
      reads this, all
    {
      && (forall account :: account in lanes ==> lanes[account] in all && !lanes[account].stopped)
      && (forall a, b :: a in lanes && b in lanes && lanes[a] == lanes[b] ==> a == b)
    }

    /** Every lane ever opened keeps its invariant, and one leaves the map only
        idle or stopped. */
    ghost predicate Valid()
      reads this, all
    {
      && (forall l :: l in all ==> l.Valid())
      && Mapped()
      && (forall l :: l in all && l !in lanes.Values ==> l.stopped || l.Idle())
    }

    constructor ()
      ensures Valid() && lanes == map[] && all == {}
    {
      lanes := map[];
      all := {};
    }

    /** An idle lane is forgotten; a stopped one left the map already. */
    method Forget(account: string, lane: Lane)
      requires lane in all && Mapped()
      requires lane in lanes.Values ==> account in lanes && lanes[account] == lane
      modifies this`lanes
      ensures Mapped()
      ensures lanes == if lane.Idle() && account in old(lanes) && old(lanes)[account] == lane
                       then old(lanes) - {account} else old(lanes)
      ensures lane in old(lanes).Values ==>
        (account !in lanes <==> lane.running == 0 && lane.waiting == [] && !lane.pause)
      ensures forall l :: l in all && l !in lanes.Values ==> l !in old(lanes).Values || (l == lane && lane.Idle())
    {
      if lane.Idle() && account in lanes && lanes[account] == lane {
        lanes := lanes - {account};
        assert forall l :: l in old(lanes).Values && l != lane ==> l in lanes.Values by {
          forall l | l in old(lanes).Values && l != lane
            ensures l in lanes.Values
          {
            var a :| a in old(lanes) && old(lanes)[a] == l;
            assert a in lanes && lanes[a] == l;
          }
        }
      }
    }

    method LaneOf(account: string) returns (lane: Lane)
      requires Valid()
      modifies this
      ensures Valid() && account in lanes && lanes[account] == lane
      ensures account in old(lanes) ==> lanes == old(lanes) && all == old(all)
      ensures account !in old(lanes) ==>
        && fresh(lane) && lane.Now() == EMPTY
        && lanes == old(lanes)[account := lane] && all == old(all) + {lane}
    {
      hide Inv;
      if account in lanes {
        return lanes[account];
      }
      lane := new Lane();
      lanes := lanes[account := lane];
      all := all + {lane};
      OthersStay(old(lanes), account);
    }

    /** A lane outside the map now was outside it before, the account's apart. */
    lemma OthersStay(before: map<string, Lane>, account: string)
      requires forall a :: a in before && a != account ==> a in lanes && lanes[a] == before[a]
      ensures forall l :: l in before.Values && l !in lanes.Values ==> account in before && l == before[account]
    {
      forall a | a in before && a != account
        ensures before[a] in lanes.Values
      {
        assert lanes[a] in lanes.Values;
      }
    }

    /** A read joins the account's line; every other lane stays as it is. */
    method Read(account: string) returns (lane: Lane)
      requires Valid()
      modifies this, all
      ensures Valid() && all == old(all) + {lane}
      ensures account in old(lanes) ==>
        lane == old(lanes)[account] && lane.Now() == Step(old(lanes[account].Now()), Ask)
      ensures account !in old(lanes) ==> fresh(lane) && lane.Now() == Step(EMPTY, Ask)
      ensures lanes == old(lanes)[account := lane]
      ensures forall l :: l in old(all) && l != lane ==> l.Now() == old(l.Now())
    {
      hide Inv, Step;
      lane := LaneOf(account);
      lane.Push();
      Forget(account, lane);
    }

    /** An attempt of a lane ended, whether or not its account left. */
    method Attempted(account: string, lane: Lane, ghost k: nat, fetch: Fetch, answer: Answer)
      requires Valid() && lane in all && k < |lane.out| && fetch == lane.out[k]
      requires lane in lanes.Values ==> account in lanes && lanes[account] == lane
      modifies this`lanes, lane
      ensures Valid() && lane.Now() == Step(old(lane.Now()), End(k, answer))
      ensures lanes == if lane.Idle() && account in old(lanes) && old(lanes)[account] == lane
                       then old(lanes) - {account} else old(lanes)
    {
      assert !lane.Idle();
      assert lane !in lanes.Values ==> lane.stopped;
      StoppedStays(lane.Now(), End(k, answer));
      hide Inv, Step;
      lane.Finish(k, fetch, answer);
      Forget(account, lane);
    }

    /** The pause of a lane ran out. */
    method Resume(account: string, lane: Lane)
      requires Valid() && account in lanes && lanes[account] == lane && lane.pause
      modifies this`lanes, lane
      ensures Valid() && lane.Now() == Step(old(lane.Now()), PauseOver)
      ensures lanes == if lane.Idle() then old(lanes) - {account} else old(lanes)
    {
      hide Inv, Step;
      lane.Resume();
      Forget(account, lane);
    }

    method Stop(account: string)
      requires Valid()
      modifies this`lanes, all
      ensures Valid() && lanes == old(lanes) - {account}
      ensures account in old(lanes) ==>
        old(lanes)[account].Now() == Step(old(lanes[account].Now()), Event.Stop)
      ensures forall l :: l in all && (account in old(lanes) ==> l != old(lanes)[account]) ==> l.Now() == old(l.Now())
    {
      hide Inv, Step;
      if account !in lanes {
        return;
      }
      var lane := lanes[account];
      lanes := lanes - {account};
      OthersStay(old(lanes), account);
      lane.Halt();
    }
  }

  /** A lane just asked runs or waits. */
  lemma AskBusy(l: State)
    requires Enabled(l, Ask)
    ensures Step(l, Ask).out != [] || Step(l, Ask).waiting != []
    ensures !Step(l, Ask).stopped
  {
    DrainBusy(Queued(l));
  }

  lemma {:induction false} DrainBusy(l: State)
    ensures l.out != [] || l.waiting != [] ==> Drained(l).out != [] || Drained(l).waiting != []
    ensures Drained(l).stopped == l.stopped
    decreases |l.waiting|
  {
    if !l.paused && |l.out| < IN_FLIGHT && l.waiting != [] {
      DrainBusy(Started(l));
    }
  }

  /** Only a stop stops a lane. */
  lemma StoppedStays(l: State, e: Event)
    requires Enabled(l, e) && !e.Stop?
    ensures Step(l, e).stopped == l.stopped
  {
    match e {
      case Ask => DrainBusy(Queued(l));
      case End(k, answer) => DrainBusy(Ended(l, k, answer));
      case PauseOver => DrainBusy(l.(paused := false));
    }
  }
}

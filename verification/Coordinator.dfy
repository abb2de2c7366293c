/** The cache worker's coordinator: the accounts it polls, the timers armed for
    them, the polls in flight and the generation that fences writes. What runs
    between two awaits of the source is one event. */
module Coordinator {
  import opened Wrappers
  import Sequences

  /** A moment of the clock; `Never` is before every moment. */
  datatype Moment = Never | Since(ms: int) {
    predicate Before(other: Moment) {
      other.Since? && (this.Never? || ms < other.ms)
    }
  }

  type Id = string

  const CHANGES_POLL_MS: nat := 60_000
  const FIRST_SYNC_POLL_MS: nat := 10_000
  const FOCUS_POLL_GAP_MS: nat := 10_000

  /** An armed timeout: whose poll it begins, and how long after it was set. */
  datatype Due = Due(id: Id, delay: nat)

  /** `timer` names the armed timeout of the next poll. */
  datatype Account = Account(timer: Option<nat>, lastPoll: int)

  /** A poll awaits its reconciliation, then the rows its delay is read from. */
  datatype Poll = Poll(id: Id, generation: nat, delaying: bool)

  /** A guarded store as captured: the generation of the call and the store
      in use then. */
  datatype Guard = Guard(generation: nat, store: nat)

  datatype Write = Write(guard: Guard, generation: nat, store: nat)

  datatype State = State(
    accounts: map<Id, Account>,
    listedAt: Moment,
    haltedAt: Moment,
    generation: nat,
    armed: map<nat, Due>,
    timers: nat,
    polls: seq<Poll>,
    guards: set<Guard>,
    store: nat,
    persisted: bool,
    writes: seq<Write>)

  const INITIAL := State(map[], Never, Never, 0, map[], 0, [], {}, 0, false, [])

  // ---------------------------------------------------------------------
  // The pieces of an event
  // ---------------------------------------------------------------------

  function Disarmed(s: State, account: Account): State {
    if account.timer.Some? then s.(armed := s.armed - {account.timer.value}) else s
  }

  /** A listed account polls next on a timer of its own. */
  function Scheduled(s: State, id: Id, delay: nat): State {
    if id !in s.accounts then s
    else
      var cleared := Disarmed(s, s.accounts[id]);
      cleared.(
        accounts := s.accounts[id := s.accounts[id].(timer := Some(s.timers))],
        armed := cleared.armed[s.timers := Due(id, delay)],
        timers := s.timers + 1)
  }

  /** The next poll comes sooner while a mailbox is in its first sync. */
  function PollDelay(syncing: bool): nat {
    if syncing then FIRST_SYNC_POLL_MS else CHANGES_POLL_MS
  }

  /** The guard any call captures when it begins. */
  function Guarded(s: State): State {
    s.(guards := s.guards + {Guard(s.generation, s.store)})
  }

  /** An account new to the list polls at once. */
  function Entered(s: State, id: Id): State {
    Scheduled(s.(accounts := s.accounts[id := Account(None, 0)]), id, 0)
  }

  function Added(s: State, ids: seq<Id>): State
    decreases |ids|
  {
    if ids == [] then s
    else if ids[0] in s.accounts then Added(s, ids[1..])
    else Added(Entered(s, ids[0]), ids[1..])
  }

  function TimersOf(s: State, ids: set<Id>): set<nat> {
    set id | id in ids && id in s.accounts && s.accounts[id].timer.Some? :: s.accounts[id].timer.value
  }

  /** The accounts leave with their timers. */
  function Stopped(s: State, ids: set<Id>): State {
    s.(accounts := s.accounts - ids, armed := s.armed - TimersOf(s, ids))
  }

  function StoppedOne(s: State, id: Id): State {
    (if id in s.accounts then Disarmed(s, s.accounts[id]) else s).(accounts := s.accounts - {id})
  }

  /** The rows of accounts that left are forgotten under a guard of now. */
  function Forgetting(s: State, ids: set<Id>): State {
    if ids == {} then s else Guarded(s)
  }

  function Listed(s: State, ids: seq<Id>): State {
    var added := Added(s, ids);
    var gone := set id | id in added.accounts && id !in ids;
    Forgetting(Stopped(added, gone), gone)
  }

  function Halted(s: State, now: int): State {
    Stopped(s, s.accounts.Keys).(haltedAt := Since(now), generation := s.generation + 1)
  }

  /** The store was replaced by an empty one. */
  function Restarted(s: State, now: int): State {
    Halted(s.(store := s.store + 1), now).(haltedAt := Never, listedAt := Never)
  }

  /** The accounts of one list in any order poll now, the ones whose last poll
      is no later than `stale`; nothing stale means every one. */
  function PolledNow(s: State, order: seq<Id>, stale: Option<int>): State
    decreases |order|
  {
    if order == [] then s
    else
      var id := order[0];
      PolledNow(
        if id in s.accounts && s.accounts[id].timer.Some? && (stale.None? || s.accounts[id].lastPoll <= stale.value)
        then Scheduled(s, id, 0) else s,
        order[1..], stale)
  }

  function WithoutPoll(s: State, i: nat): State
    requires i < |s.polls|
  {
    s.(polls := s.polls[..i] + s.polls[i + 1..])
  }

  // ---------------------------------------------------------------------
  // The events
  // ---------------------------------------------------------------------

  datatype Outcome = Reconciled | Unauthenticated | OtherFailure

  datatype Event =
    | Attach(listedAt: int, ids: seq<Id>, replaced: bool, now: int)
    | PollAll(order: seq<Id>, stale: Option<int>)
    | Fire(timer: nat, now: int)
    | Answer(poll: nat, outcome: Outcome, now: int)
    | Delayed(poll: nat, syncing: bool)
    | Hurry(id: Id)
    | Clear(now: int)
    | Begin
    | Persisted
    | Commit(guard: Guard)

  predicate Enabled(s: State, e: Event) {
    match e
    case Fire(timer, _) => timer in s.armed
    case Answer(poll, _, _) => poll < |s.polls| && !s.polls[poll].delaying
    case Delayed(poll, _) => poll < |s.polls| && s.polls[poll].delaying
    case Commit(guard) => s.persisted && guard in s.guards
    case _ => true
  }

  function Attached(s: State, listedAt: int, ids: seq<Id>, replaced: bool, now: int): State {
    var chosen := if replaced then Restarted(s, now) else s;
    if !Since(listedAt).Before(chosen.listedAt) && chosen.haltedAt.Before(Since(listedAt)) then
      Listed(chosen.(listedAt := Since(listedAt)), ids)
    else chosen
  }

  function Fired(s: State, timer: nat, now: int): State
    requires timer in s.armed
  {
    var id := s.armed[timer].id;
    var rung := s.(armed := s.armed - {timer});
    if id !in s.accounts then rung
    else
      Guarded(rung.(
        accounts := s.accounts[id := Account(None, now)],
        polls := s.polls + [Poll(id, s.generation, false)]))
  }

  function Answered(s: State, i: nat, outcome: Outcome, now: int): State
    requires i < |s.polls|
  {
    var poll := s.polls[i];
    if poll.generation != s.generation then WithoutPoll(s, i)
    else if outcome.Unauthenticated? then
      Forgetting(Halted(WithoutPoll(s, i), now), s.accounts.Keys)
    else s.(polls := s.polls[i := poll.(delaying := true)])
  }

  function Step(s: State, e: Event): State
    requires Enabled(s, e)
  {
    match e
    case Attach(listedAt, ids, replaced, now) => Attached(s, listedAt, ids, replaced, now)
    case PollAll(order, stale) => PolledNow(s, order, stale)
    case Fire(timer, now) => Fired(s, timer, now)
    case Answer(poll, outcome, now) => Answered(s, poll, outcome, now)
    case Delayed(poll, syncing) => Scheduled(WithoutPoll(s, poll), s.polls[poll].id, PollDelay(syncing))
    case Hurry(id) => Scheduled(s, id, 0)
    case Clear(now) => Halted(s, now)
    case Begin => Guarded(s)
    case Persisted => s.(persisted := true)
    case Commit(guard) =>
      if guard.generation != s.generation then s
      else s.(writes := s.writes + [Write(guard, s.generation, s.store)])
  }

  // ---------------------------------------------------------------------
  // What every event keeps
  // ---------------------------------------------------------------------

  /** Every armed timer is the one its listed account holds, and the other way
      round: never two for one account, none for an unlisted one. */
  ghost predicate TimersMatch(s: State) {
    && (forall t :: t in s.armed ==>
          t < s.timers && s.armed[t].id in s.accounts && s.accounts[s.armed[t].id].timer == Some(t))
    && (forall id :: id in s.accounts && s.accounts[id].timer.Some? ==>
          s.accounts[id].timer.value in s.armed && s.armed[s.accounts[id].timer.value].id == id)
  }

  /** A poll whose end arms the account's timer or halts every account. */
  predicate Carries(s: State, poll: Poll, id: Id) {
    poll.id == id && (poll.delaying || poll.generation == s.generation)
  }

  /** No listed account goes quiet. */
  ghost predicate NoneQuiet(s: State) {
    forall id :: id in s.accounts ==>
      s.accounts[id].timer.Some? || exists i :: 0 <= i < |s.polls| && Carries(s, s.polls[i], id)
  }

  /** A list in force was fetched after the last halt. */
  predicate ListIsNewer(s: State) {
    s.accounts != map[] ==> s.haltedAt.Before(s.listedAt)
  }

  ghost predicate Fenced(s: State) {
    && (forall g :: g in s.guards ==>
          g.generation <= s.generation && (g.generation == s.generation ==> g.store == s.store))
    && (forall i :: 0 <= i < |s.writes| ==>
          s.writes[i].guard.generation == s.writes[i].generation && s.writes[i].guard.store == s.writes[i].store)
  }

  ghost predicate Inv(s: State) {
    TimersMatch(s) && NoneQuiet(s) && ListIsNewer(s) && Fenced(s)
  }

  lemma ScheduleKeeps(s: State, id: Id, delay: nat)
    requires TimersMatch(s)
    ensures TimersMatch(Scheduled(s, id, delay))
    ensures id in s.accounts ==> Scheduled(s, id, delay).accounts[id].timer.Some?
    ensures Scheduled(s, id, delay).accounts.Keys == s.accounts.Keys
    ensures forall other :: other in s.accounts && other != id ==>
      Scheduled(s, id, delay).accounts[other] == s.accounts[other]
  {
  }

  lemma EnterKeeps(s: State, id: Id)
    requires TimersMatch(s) && NoneQuiet(s) && id !in s.accounts
    ensures TimersMatch(Entered(s, id)) && NoneQuiet(Entered(s, id))
    ensures var next := Entered(s, id);
      next == s.(accounts := next.accounts, armed := next.armed, timers := next.timers)
      && next.accounts.Keys == s.accounts.Keys + {id}
  {
    var entered := s.(accounts := s.accounts[id := Account(None, 0)]);
    ScheduleKeeps(entered, id, 0);
    var next := Entered(s, id);
    forall other | other in next.accounts && next.accounts[other].timer.None?
      ensures exists i :: 0 <= i < |next.polls| && Carries(next, next.polls[i], other)
    {
      var i :| 0 <= i < |s.polls| && Carries(s, s.polls[i], other);
      assert Carries(next, next.polls[i], other);
    }
  }

  lemma Names(ids: seq<Id>)
    requires ids != []
    ensures (set id | id in ids) == {ids[0]} + set id | id in ids[1..]
  {
    Sequences.Cons(ids);
  }

  lemma {:induction false} AddKeeps(s: State, ids: seq<Id>)
    requires TimersMatch(s) && NoneQuiet(s)
    ensures TimersMatch(Added(s, ids)) && NoneQuiet(Added(s, ids))
    ensures var added := Added(s, ids);
      added == s.(accounts := added.accounts, armed := added.armed, timers := added.timers)
    ensures Added(s, ids).accounts.Keys == s.accounts.Keys + set id | id in ids
    decreases |ids|
  {
    hide Entered, TimersMatch, NoneQuiet;
    if ids != [] {
      Names(ids);
      if ids[0] in s.accounts {
        AddKeeps(s, ids[1..]);
      } else {
        EnterKeeps(s, ids[0]);
        AddKeeps(Entered(s, ids[0]), ids[1..]);
      }
    }
  }

  lemma StopKeeps(s: State, ids: set<Id>)
    requires TimersMatch(s)
    ensures TimersMatch(Stopped(s, ids))
    ensures NoneQuiet(s) ==> NoneQuiet(Stopped(s, ids))
  {
    var next := Stopped(s, ids);
    if NoneQuiet(s) {
      forall id | id in next.accounts && next.accounts[id].timer.None?
        ensures exists i :: 0 <= i < |next.polls| && Carries(next, next.polls[i], id)
      {
        var i :| 0 <= i < |s.polls| && Carries(s, s.polls[i], id);
        assert Carries(next, next.polls[i], id);
      }
    }
  }

  lemma GuardKeeps(s: State)
    requires Inv(s)
    ensures Inv(Guarded(s))
  {
    NoneQuietAs(s, Guarded(s));
  }

  /** Accounts, polls and generation alone decide who is quiet. */
  lemma NoneQuietAs(s: State, next: State)
    requires NoneQuiet(s) && next.accounts == s.accounts && next.polls == s.polls && next.generation == s.generation
    ensures NoneQuiet(next)
  {
    forall id | id in next.accounts && next.accounts[id].timer.None?
      ensures exists i :: 0 <= i < |next.polls| && Carries(next, next.polls[i], id)
    {
      var i :| 0 <= i < |s.polls| && Carries(s, s.polls[i], id);
      assert Carries(next, next.polls[i], id);
    }
  }

  lemma ListKeeps(s: State, ids: seq<Id>)
    requires Inv(s) && s.haltedAt.Before(s.listedAt)
    ensures Inv(Listed(s, ids))
    ensures forall id :: id in Listed(s, ids).accounts <==> id in ids
  {
    AddKeeps(s, ids);
    var added := Added(s, ids);
    var gone := set id | id in added.accounts && id !in ids;
    StopKeeps(added, gone);
    assert Inv(Stopped(added, gone));
    if gone != {} {
      GuardKeeps(Stopped(added, gone));
    }
  }

  lemma HaltKeeps(s: State, now: int)
    requires TimersMatch(s) && Fenced(s)
    ensures Inv(Halted(s, now)) && Halted(s, now).accounts == map[]
  {
    StopKeeps(s, s.accounts.Keys);
    assert s.accounts - s.accounts.Keys == map[];
  }

  /** A replaced store is a new one to every guard of before. */
  lemma RestartKeeps(s: State, now: int)
    requires Inv(s)
    ensures Inv(Restarted(s, now)) && Restarted(s, now).accounts == map[]
  {
    var next := Restarted(s, now);
    StopKeeps(s.(store := s.store + 1), s.accounts.Keys);
    assert s.accounts - s.accounts.Keys == map[];
    assert Fenced(next);
  }

  lemma {:induction false} PollNowKeeps(s: State, order: seq<Id>, stale: Option<int>)
    requires Inv(s)
    ensures Inv(PolledNow(s, order, stale))
    ensures var next := PolledNow(s, order, stale);
      next == s.(accounts := next.accounts, armed := next.armed, timers := next.timers)
      && next.accounts.Keys == s.accounts.Keys
    decreases |order|
  {
    if order != [] {
      var id := order[0];
      if id in s.accounts && s.accounts[id].timer.Some? && (stale.None? || s.accounts[id].lastPoll <= stale.value) {
        ScheduledKeeps(s, id, 0);
        PollNowKeeps(Scheduled(s, id, 0), order[1..], stale);
      } else {
        PollNowKeeps(s, order[1..], stale);
      }
    }
  }

  lemma ScheduledKeeps(s: State, id: Id, delay: nat)
    requires Inv(s)
    ensures Inv(Scheduled(s, id, delay))
  {
    ScheduleKeeps(s, id, delay);
    var next := Scheduled(s, id, delay);
    forall other | other in next.accounts && next.accounts[other].timer.None?
      ensures exists i :: 0 <= i < |next.polls| && Carries(next, next.polls[i], other)
    {
      var i :| 0 <= i < |s.polls| && Carries(s, s.polls[i], other);
      assert Carries(next, next.polls[i], other);
    }
  }

  lemma FireKeeps(s: State, timer: nat, now: int)
    requires Inv(s) && timer in s.armed
    ensures Inv(Fired(s, timer, now))
  {
    var id := s.armed[timer].id;
    var next := Fired(s, timer, now);
    forall other | other in next.accounts && next.accounts[other].timer.None?
      ensures exists i :: 0 <= i < |next.polls| && Carries(next, next.polls[i], other)
    {
      if other == id {
        assert Carries(next, next.polls[|s.polls|], id);
      } else {
        var i :| 0 <= i < |s.polls| && Carries(s, s.polls[i], other);
        assert Carries(next, next.polls[i], other);
      }
    }
    assert TimersMatch(next);
    assert s.accounts != map[] by { assert id in s.accounts; }
  }

  /** A poll leaves the others where they stand. */
  lemma PollLeaves(s: State, i: nat, id: Id)
    requires NoneQuiet(s) && i < |s.polls| && id in s.accounts && s.accounts[id].timer.None?
    requires !Carries(s, s.polls[i], id)
    ensures var next := WithoutPoll(s, i);
      exists k :: 0 <= k < |next.polls| && Carries(next, next.polls[k], id)
  {
    var next := WithoutPoll(s, i);
    var j :| 0 <= j < |s.polls| && Carries(s, s.polls[j], id);
    var k := if j < i then j else j - 1;
    assert next.polls[k] == s.polls[j];
    assert Carries(next, next.polls[k], id);
  }

  lemma AnswerKeeps(s: State, i: nat, outcome: Outcome, now: int)
    requires Inv(s) && i < |s.polls| && !s.polls[i].delaying
    ensures Inv(Answered(s, i, outcome, now))
  {
    var poll := s.polls[i];
    var next := Answered(s, i, outcome, now);
    if poll.generation != s.generation {
      forall id | id in next.accounts && next.accounts[id].timer.None?
        ensures exists k :: 0 <= k < |next.polls| && Carries(next, next.polls[k], id)
      {
        PollLeaves(s, i, id);
      }
    } else if outcome.Unauthenticated? {
      HaltKeeps(WithoutPoll(s, i), now);
      if s.accounts.Keys != {} {
        GuardKeeps(Halted(WithoutPoll(s, i), now));
      }
    } else {
      forall id | id in next.accounts && next.accounts[id].timer.None?
        ensures exists k :: 0 <= k < |next.polls| && Carries(next, next.polls[k], id)
      {
        var j :| 0 <= j < |s.polls| && Carries(s, s.polls[j], id);
        assert Carries(next, next.polls[j], id);
      }
    }
  }

  lemma DelayKeeps(s: State, i: nat, delay: nat)
    requires Inv(s) && i < |s.polls| && s.polls[i].delaying
    ensures Inv(Scheduled(WithoutPoll(s, i), s.polls[i].id, delay))
  {
    var left := WithoutPoll(s, i);
    var next := Scheduled(left, s.polls[i].id, delay);
    ScheduleKeeps(left, s.polls[i].id, delay);
    forall id | id in next.accounts && next.accounts[id].timer.None?
      ensures exists k :: 0 <= k < |next.polls| && Carries(next, next.polls[k], id)
    {
      PollLeaves(s, i, id);
      var k :| 0 <= k < |left.polls| && Carries(left, left.polls[k], id);
      assert Carries(next, next.polls[k], id);
    }
  }

  /** A later list may be named once it is newer than the halt. */
  lemma NamedKeeps(s: State, listedAt: Moment)
    requires Inv(s) && s.haltedAt.Before(listedAt)
    ensures Inv(s.(listedAt := listedAt))
  {
    NoneQuietAs(s, s.(listedAt := listedAt));
  }

  lemma AttachKeeps(s: State, listedAt: int, ids: seq<Id>, replaced: bool, now: int)
    requires Inv(s)
    ensures Inv(Attached(s, listedAt, ids, replaced, now))
  {
    if replaced {
      RestartKeeps(s, now);
    }
    var chosen := if replaced then Restarted(s, now) else s;
    if !Since(listedAt).Before(chosen.listedAt) && chosen.haltedAt.Before(Since(listedAt)) {
      NamedKeeps(chosen, Since(listedAt));
      ListKeeps(chosen.(listedAt := Since(listedAt)), ids);
    }
  }

  lemma StepKeeps(s: State, e: Event)
    requires Inv(s) && Enabled(s, e)
    ensures Inv(Step(s, e))
  {
    match e {
      case Attach(listedAt, ids, replaced, now) => AttachKeeps(s, listedAt, ids, replaced, now);
      case PollAll(order, stale) => PollNowKeeps(s, order, stale);
      case Fire(timer, now) => FireKeeps(s, timer, now);
      case Answer(poll, outcome, now) => AnswerKeeps(s, poll, outcome, now);
      case Delayed(poll, syncing) => DelayKeeps(s, poll, PollDelay(syncing));
      case Hurry(id) => ScheduledKeeps(s, id, 0);
      case Clear(now) => HaltKeeps(s, now);
      case Begin => GuardKeeps(s);
      case Persisted => NoneQuietAs(s, s.(persisted := true));
      case Commit(_) => NoneQuietAs(s, Step(s, e));
    }
  }

  // ---------------------------------------------------------------------
  // Every run
  // ---------------------------------------------------------------------

  predicate Runs(s: State, events: seq<Event>)
    decreases |events|
  {
    events == [] || (Enabled(s, events[0]) && Runs(Step(s, events[0]), events[1..]))
  }

  function After(s: State, events: seq<Event>): State
    requires Runs(s, events)
    decreases |events|
  {
    if events == [] then s else After(Step(s, events[0]), events[1..])
  }

  lemma {:induction false} EveryRunFrom(s: State, events: seq<Event>)
    requires Inv(s) && Runs(s, events)
    ensures Inv(After(s, events))
    decreases |events|
  {
    if events != [] {
      StepKeeps(s, events[0]);
      EveryRunFrom(Step(s, events[0]), events[1..]);
    }
  }

  /** In every reachable state: one timer per listed account at most and none
      for another, no listed account quiet, the list newer than the halt, and
      every write under a guard of its own generation and store. */
  lemma EveryRun(events: seq<Event>)
    requires Runs(INITIAL, events)
    ensures Inv(After(INITIAL, events))
  {
    EveryRunFrom(INITIAL, events);
  }

  lemma AddedSame(s: State, ids: seq<Id>)
    ensures var added := Added(s, ids);
      added == s.(accounts := added.accounts, armed := added.armed, timers := added.timers)
    decreases |ids|
  {
    if ids != [] {
      AddedSame(
        if ids[0] in s.accounts then s else Entered(s, ids[0]),
        ids[1..]);
    }
  }

  lemma PolledNone(s: State, stale: Option<int>)
    ensures PolledNow(s, [], stale) == s
  {
  }

  lemma PolledSame(s: State, order: seq<Id>, stale: Option<int>)
    ensures var next := PolledNow(s, order, stale);
      next == s.(accounts := next.accounts, armed := next.armed, timers := next.timers)
      && next.accounts.Keys == s.accounts.Keys
    decreases |order|
  {
    if order != [] {
      var id := order[0];
      PolledSame(
        if id in s.accounts && s.accounts[id].timer.Some? && (stale.None? || s.accounts[id].lastPoll <= stale.value)
        then Scheduled(s, id, 0) else s,
        order[1..], stale);
    }
  }

  lemma AttachedSame(s: State, listedAt: int, ids: seq<Id>, replaced: bool, now: int)
    ensures var next := Attached(s, listedAt, ids, replaced, now);
      && next.writes == s.writes
      && next.generation == (if replaced then s.generation + 1 else s.generation)
      && (!replaced ==> !next.listedAt.Before(s.listedAt))
  {
    var chosen := if replaced then Restarted(s, now) else s;
    var named := chosen.(listedAt := Since(listedAt));
    hide Added;
    AddedSame(named, ids);
  }

  /** An event that halts: a clear, a replaced store, or an answer that tells a
      poll of the generation in force that the session ended. */
  predicate Halts(s: State, e: Event)
    requires Enabled(s, e)
  {
    || e.Clear?
    || (e.Attach? && e.replaced)
    || (e.Answer? && e.outcome.Unauthenticated? && s.polls[e.poll].generation == s.generation)
  }

  /** Only a commit writes, and exactly a halt moves the generation. */
  lemma OthersSame(s: State, e: Event)
    requires Enabled(s, e) && !e.Commit?
    ensures Step(s, e).writes == s.writes
    ensures Step(s, e).generation == if Halts(s, e) then s.generation + 1 else s.generation
    ensures !(e.Attach? && e.replaced) ==> !Step(s, e).listedAt.Before(s.listedAt)
  {
    hide Attached, PolledNow;
    if e.Attach? {
      AttachedSame(s, e.listedAt, e.ids, e.replaced, e.now);
    } else if e.PollAll? {
      PolledSame(s, e.order, e.stale);
    }
  }

  /** One event moves the generation on exactly when it halts, leaves the writes
      of before in place and adds none but of the generation it finds. */
  lemma StepMovesOn(s: State, e: Event)
    requires Enabled(s, e)
    ensures Step(s, e).generation == if Halts(s, e) then s.generation + 1 else s.generation
    ensures |s.writes| <= |Step(s, e).writes| && Step(s, e).writes[..|s.writes|] == s.writes
    ensures forall i :: |s.writes| <= i < |Step(s, e).writes| ==>
      Step(s, e).writes[i].guard.generation == s.generation
    ensures !(e.Attach? && e.replaced) ==> !Step(s, e).listedAt.Before(s.listedAt)
  {
    if !e.Commit? {
      hide Step;
      OthersSame(s, e);
    }
  }

  /** The fence: past any event that moves the generation, whatever the run
      does, no work begun before it writes. `StepMovesOn` names those events:
      a clear, a replaced store, and the end of the session in an answer. */
  lemma {:induction false} NothingEarlierWrites(s: State, e: Event, events: seq<Event>)
    requires Enabled(s, e) && Step(s, e).generation > s.generation
    requires Runs(Step(s, e), events)
    ensures var end := After(Step(s, e), events);
      forall i :: |Step(s, e).writes| <= i < |end.writes| ==> end.writes[i].guard.generation > s.generation
  {
    WritesFrom(Step(s, e), events, s.generation);
  }

  lemma {:induction false} WritesFrom(s: State, events: seq<Event>, past: nat)
    requires Runs(s, events) && past < s.generation
    ensures var end := After(s, events);
      && |s.writes| <= |end.writes| && end.writes[..|s.writes|] == s.writes
      && forall i :: |s.writes| <= i < |end.writes| ==> end.writes[i].guard.generation > past
    decreases |events|
  {
    if events != [] {
      StepMovesOn(s, events[0]);
      var next := Step(s, events[0]);
      WritesFrom(next, events[1..], past);
      var end := After(next, events[1..]);
      assert end.writes[..|s.writes|] == end.writes[..|next.writes|][..|s.writes|];
      assert forall i :: |s.writes| <= i < |next.writes| ==> end.writes[i] == end.writes[..|next.writes|][i];
    }
  }

  // ---------------------------------------------------------------------
  // What each event does, said of accounts, timers and writes
  // ---------------------------------------------------------------------

  /** A guard of the generation in force writes, once, in that generation and
      into the store it was captured with; any other writes nothing. */
  lemma CommitWrites(s: State, guard: Guard)
    requires Inv(s) && Enabled(s, Commit(guard))
    ensures Step(s, Commit(guard)) == s.(writes :=
      if guard.generation == s.generation then s.writes + [Write(guard, s.generation, guard.store)] else s.writes)
  {
  }

  /** Work begun now, with no halt ahead of its commit, writes once the store
      may be written. */
  lemma BegunWorkWrites(s: State)
    requires Inv(s)
    ensures var guard := Guard(s.generation, s.store);
      && Runs(s, [Begin, Persisted, Commit(guard)])
      && After(s, [Begin, Persisted, Commit(guard)]).writes == s.writes + [Write(guard, s.generation, s.store)]
  {
    RunsThree(s, Begin, Persisted, Commit(Guard(s.generation, s.store)));
  }

  /** How many commits of a run were made under the generation they found. */
  function Commits(s: State, events: seq<Event>): nat
    requires Runs(s, events)
    decreases |events|
  {
    if events == [] then 0
    else
      (if events[0].Commit? && events[0].guard.generation == s.generation then 1 else 0)
      + Commits(Step(s, events[0]), events[1..])
  }

  /** Over a run that many batches are written, no more and no fewer. */
  lemma {:induction false} WritesCounted(s: State, events: seq<Event>)
    requires Runs(s, events)
    ensures |After(s, events).writes| == |s.writes| + Commits(s, events)
    decreases |events|
  {
    if events != [] {
      if !events[0].Commit? {
        OthersSame(s, events[0]);
      }
      WritesCounted(Step(s, events[0]), events[1..]);
    }
  }

  /** The account waits on a timer set since, due after so long. */
  predicate DueIn(s: State, id: Id, since: nat, delay: nat) {
    && id in s.accounts && s.accounts[id].timer.Some?
    && s.accounts[id].timer.value >= since
    && s.accounts[id].timer.value in s.armed && s.armed[s.accounts[id].timer.value] == Due(id, delay)
  }

  lemma SchedulesOne(s: State, id: Id, delay: nat)
    requires TimersMatch(s) && id in s.accounts
    ensures DueIn(Scheduled(s, id, delay), id, s.timers, delay)
    ensures Scheduled(s, id, delay).accounts[id].lastPoll == s.accounts[id].lastPoll
    ensures Scheduled(s, id, delay).timers == s.timers + 1
    ensures forall other, since, due :: other != id && DueIn(s, other, since, due) ==>
      DueIn(Scheduled(s, id, delay), other, since, due)
  {
  }

  /** Of the accounts named, those that wait and were last polled no later than
      `stale` poll at once; any other keeps its timer. */
  lemma {:induction false} PollsNow(s: State, order: seq<Id>, stale: Option<int>, id: Id)
    requires TimersMatch(s) && id in s.accounts
    ensures var t := PolledNow(s, order, stale);
      var hurried := id in order && s.accounts[id].timer.Some?
        && (stale.None? || s.accounts[id].lastPoll <= stale.value);
      && id in t.accounts && t.accounts[id].lastPoll == s.accounts[id].lastPoll
      && (hurried ==> DueIn(t, id, s.timers, 0))
      && (!hurried ==> t.accounts[id] == s.accounts[id])
      && (!hurried ==> forall since, due :: DueIn(s, id, since, due) ==> DueIn(t, id, since, due))
    decreases |order|
  {
    if order != [] {
      var first := order[0];
      Sequences.Cons(order);
      if first in s.accounts && s.accounts[first].timer.Some?
        && (stale.None? || s.accounts[first].lastPoll <= stale.value) {
        ScheduleKeeps(s, first, 0);
        SchedulesOne(s, first, 0);
        var next := Scheduled(s, first, 0);
        hide Scheduled, TimersMatch;
        PollsNow(next, order[1..], stale, id);
      } else {
        PollsNow(s, order[1..], stale, id);
      }
    }
  }

  /** So it is for a focus, for a network that is back, and for the one account
      a job hurries. */
  lemma HurriedPolls(s: State, e: Event, id: Id)
    requires Inv(s) && (e.PollAll? || e.Hurry?) && id in s.accounts
    ensures var t, was := Step(s, e), s.accounts[id];
      var hurried := if e.Hurry? then e.id == id
        else id in e.order && was.timer.Some? && (e.stale.None? || was.lastPoll <= e.stale.value);
      && id in t.accounts && t.accounts[id].lastPoll == was.lastPoll
      && (if hurried then DueIn(t, id, s.timers, 0) else t.accounts[id] == was)
      && (!hurried ==> forall since, due :: DueIn(s, id, since, due) ==> DueIn(t, id, since, due))
      && t.polls == s.polls && t.generation == s.generation && t.writes == s.writes
  {
    if e.PollAll? {
      PollsNow(s, e.order, e.stale, id);
      PolledSame(s, e.order, e.stale);
    } else if e.id in s.accounts {
      SchedulesOne(s, e.id, 0);
    }
  }

  /** A list's new accounts poll at once; the ones it found stay as they are. */
  lemma {:induction false} AddsNew(s: State, ids: seq<Id>, id: Id)
    requires TimersMatch(s)
    ensures var t := Added(s, ids);
      && t.timers >= s.timers
      && (id in s.accounts ==>
            id in t.accounts && t.accounts[id] == s.accounts[id]
            && forall since, due :: DueIn(s, id, since, due) ==> DueIn(t, id, since, due))
      && (id !in s.accounts && id in ids ==> DueIn(t, id, s.timers, 0) && t.accounts[id].lastPoll == 0)
    decreases |ids|
  {
    if ids != [] {
      Sequences.Cons(ids);
      if ids[0] in s.accounts {
        AddsNew(s, ids[1..], id);
      } else {
        var entered := s.(accounts := s.accounts[ids[0] := Account(None, 0)]);
        ScheduleKeeps(entered, ids[0], 0);
        SchedulesOne(entered, ids[0], 0);
        assert forall since, due :: id in s.accounts && DueIn(s, id, since, due) ==> DueIn(entered, id, since, due);
        hide Scheduled, TimersMatch;
        AddsNew(Entered(s, ids[0]), ids[1..], id);
      }
    }
  }

  /** The accounts that leave take no other account's timer along. */
  lemma StopsOthers(s: State, ids: set<Id>, id: Id)
    requires TimersMatch(s) && id !in ids && id in s.accounts
    ensures id in Stopped(s, ids).accounts && Stopped(s, ids).accounts[id] == s.accounts[id]
    ensures forall since, due :: DueIn(s, id, since, due) ==> DueIn(Stopped(s, ids), id, since, due)
  {
  }

  /** Some account is not in the list, so its rows are to be forgotten. */
  ghost predicate Leaves(s: State, ids: seq<Id>) {
    exists id :: id in s.accounts && id !in ids
  }

  lemma ListsExactly(s: State, ids: seq<Id>)
    requires Inv(s) && s.haltedAt.Before(s.listedAt)
    ensures var t := Listed(s, ids);
      && t == s.(accounts := t.accounts, armed := t.armed, timers := t.timers, guards := t.guards)
      && t.guards == s.guards + (if Leaves(s, ids) then {Guard(s.generation, s.store)} else {})
      && forall id ::
        && (id in t.accounts <==> id in ids)
        && (id in s.accounts && id in ids ==> t.accounts[id] == s.accounts[id])
        && (id !in s.accounts && id in ids ==> DueIn(t, id, s.timers, 0) && t.accounts[id].lastPoll == 0)
  {
    ListKeeps(s, ids);
    AddKeeps(s, ids);
    var added := Added(s, ids);
    var gone := set id | id in added.accounts && id !in ids;
    forall id | id in ids
      ensures id in s.accounts ==> Listed(s, ids).accounts[id] == s.accounts[id]
      ensures id !in s.accounts ==>
        DueIn(Listed(s, ids), id, s.timers, 0) && Listed(s, ids).accounts[id].lastPoll == 0
    {
      AddsNew(s, ids, id);
      StopsOthers(added, gone, id);
      assert DueIn(Stopped(added, gone), id, s.timers, 0) ==> DueIn(Listed(s, ids), id, s.timers, 0);
    }
  }

  /** A list is taken exactly when none newer is in force and it was fetched
      after the last halt: its accounts are then the ones listed, the new ones
      poll at once and the ones of before go on. Otherwise nothing changes. */
  lemma AttachLists(s: State, listedAt: int, ids: seq<Id>, now: int)
    requires Inv(s)
    ensures var t := Step(s, Attach(listedAt, ids, false, now));
      if (s.listedAt.Since? ==> s.listedAt.ms <= listedAt) && (s.haltedAt.Since? ==> s.haltedAt.ms < listedAt) then
        && t == s.(listedAt := Since(listedAt),
             accounts := t.accounts, armed := t.armed, timers := t.timers, guards := t.guards)
        && t.guards == s.guards + (if Leaves(s, ids) then {Guard(s.generation, s.store)} else {})
        && forall id ::
          && (id in t.accounts <==> id in ids)
          && (id in s.accounts && id in ids ==> t.accounts[id] == s.accounts[id])
          && (id !in s.accounts && id in ids ==> DueIn(t, id, s.timers, 0) && t.accounts[id].lastPoll == 0)
      else t == s
  {
    if s.haltedAt.Before(Since(listedAt)) {
      NamedKeeps(s, Since(listedAt));
      ListsExactly(s.(listedAt := Since(listedAt)), ids);
    }
  }

  /** A replaced store starts over: a new store and generation, no timer of
      before, and every account of the list polled at once. */
  lemma ReplacedStartsOver(s: State, listedAt: int, ids: seq<Id>, now: int)
    requires Inv(s)
    ensures var t := Step(s, Attach(listedAt, ids, true, now));
      && t.store == s.store + 1 && t.generation == s.generation + 1
      && t.listedAt == Since(listedAt) && t.haltedAt == Never
      && t.guards == s.guards && t.polls == s.polls && t.writes == s.writes
      && forall id ::
        && (id in t.accounts <==> id in ids)
        && (id in ids ==> DueIn(t, id, s.timers, 0) && t.accounts[id].lastPoll == 0)
  {
    RestartKeeps(s, now);
    var restarted := Restarted(s, now);
    NamedKeeps(restarted, Since(listedAt));
    ListsExactly(restarted.(listedAt := Since(listedAt)), ids);
    AddKeeps(restarted.(listedAt := Since(listedAt)), ids);
  }

  /** A halt leaves no account and no timer, and marks its moment. */
  lemma HaltEmpties(s: State, now: int)
    requires Inv(s)
    ensures var t := Step(s, Clear(now));
      t == s.(accounts := map[], armed := map[], haltedAt := Since(now), generation := s.generation + 1)
  {
    HaltKeeps(s, now);
    var t := Step(s, Clear(now));
    NoTimers(t);
  }

  lemma NoTimers(s: State)
    requires TimersMatch(s) && s.accounts == map[]
    ensures s.armed == map[]
  {
    forall timer ensures timer !in s.armed {
      if timer in s.armed {
        assert false;
      }
    }
  }

  /** So does an answer that the session ended, to a poll of the generation in
      force; to an older poll no answer means anything. */
  lemma SessionEnds(s: State, i: nat, outcome: Outcome, now: int)
    requires Inv(s) && Enabled(s, Answer(i, outcome, now))
    ensures var t := Step(s, Answer(i, outcome, now));
      var polls := s.polls[..i] + s.polls[i + 1..];
      && (s.polls[i].generation != s.generation ==> t == s.(polls := polls))
      && (s.polls[i].generation == s.generation && outcome == Unauthenticated ==>
            t == s.(accounts := map[], armed := map[], haltedAt := Since(now), generation := s.generation + 1,
              polls := polls,
              guards := s.guards + if s.accounts == map[] then {} else {Guard(s.generation + 1, s.store)}))
  {
    if s.polls[i].generation == s.generation && outcome == Unauthenticated {
      HaltKeeps(WithoutPoll(s, i), now);
      var t := Step(s, Answer(i, outcome, now));
      NoTimers(t);
    }
  }

  /** The round of a poll: its timer rings, its answer comes, whatever it is
      but the end of the session, and the account waits for the next one, ten
      seconds in a first sync and a minute otherwise. */
  lemma PollRound(s: State, timer: nat, outcome: Outcome, now: int, later: int, syncing: bool)
    requires Inv(s) && timer in s.armed && outcome != Unauthenticated
    ensures var id, i := s.armed[timer].id, |s.polls|;
      && Runs(s, [Fire(timer, now), Answer(i, outcome, later), Delayed(i, syncing)])
      && var t := After(s, [Fire(timer, now), Answer(i, outcome, later), Delayed(i, syncing)]);
        && t.polls == s.polls && t.generation == s.generation && t.writes == s.writes
        && t.guards == s.guards + {Guard(s.generation, s.store)}
        && DueIn(t, id, s.timers, if syncing then 10_000 else 60_000) && t.accounts[id].lastPoll == now
        && timer !in t.armed
        && forall other :: other in s.accounts && other != id ==>
             other in t.accounts && t.accounts[other] == s.accounts[other]
  {
    var id, i := s.armed[timer].id, |s.polls|;
    var fired := Step(s, Fire(timer, now));
    FireKeeps(s, timer, now);
    var answered := Step(fired, Answer(i, outcome, later));
    AnswerKeeps(fired, i, outcome, later);
    assert answered.polls[..i] + answered.polls[i + 1..] == s.polls;
    var left := WithoutPoll(answered, i);
    SchedulesOne(left, id, PollDelay(syncing));
    var ended := Step(answered, Delayed(i, syncing));
    RunsThree(s, Fire(timer, now), Answer(i, outcome, later), Delayed(i, syncing));
  }

  lemma RunsThree(s: State, a: Event, b: Event, c: Event)
    requires Enabled(s, a) && Enabled(Step(s, a), b) && Enabled(Step(Step(s, a), b), c)
    ensures Runs(s, [a, b, c]) && After(s, [a, b, c]) == Step(Step(Step(s, a), b), c)
  {
    hide Step, Enabled;
    assert [a, b, c][1..] == [b, c] && [b, c][1..] == [c] && [c][1..] == [];
    var t := Step(Step(s, a), b);
    assert Runs(Step(t, c), []);
    assert Runs(t, [c]) && After(t, [c]) == Step(t, c);
  }

  // ---------------------------------------------------------------------
  // The source's object
  // ---------------------------------------------------------------------

  /** `armed` and `timers` are the event loop's timeouts; the polls, guards
      and writes are what its closures and its store hold. */
  class Worker {
    var accounts: map<Id, Account>
    var listedAt: Moment
    var haltedAt: Moment
    var generation: nat
    var armed: map<nat, Due>
    var timers: nat
    ghost var polls: seq<Poll>
    ghost var guards: set<Guard>
    ghost var store: nat
    ghost var persisted: bool
    ghost var writes: seq<Write>

    ghost function Now(): State
      reads this
    {
      State(accounts, listedAt, haltedAt, generation, armed, timers, polls, guards, store, persisted, writes)
    }

    constructor ()
      ensures Now() == INITIAL
      ensures accounts == map[] && listedAt == Never && haltedAt == Never && !persisted && polls == [] && writes == []
    {
      accounts, listedAt, haltedAt, generation := map[], Never, Never, 0;
      armed, timers := map[], 0;
      polls, guards, store, persisted, writes := [], {}, 0, false, [];
    }

    method Schedule(id: Id, delay: nat)
      modifies this
      ensures Now() == Scheduled(old(Now()), id, delay)
    {
      if id !in accounts {
        return;
      }
      var account := accounts[id];
      if account.timer.Some? {
        armed := armed - {account.timer.value};
      }
      armed := armed[timers := Due(id, delay)];
      accounts := accounts[id := account.(timer := Some(timers))];
      timers := timers + 1;
    }

    /** One account leaves with its timer. */
    method Stop(id: Id)
      modifies this
      ensures Now() == StoppedOne(old(Now()), id)
    {
      if id in accounts && accounts[id].timer.Some? {
        armed := armed - {accounts[id].timer.value};
      }
      accounts := accounts - {id};
    }

    method StopEach(ids: set<Id>)
      requires TimersMatch(Now())
      modifies this
      ensures Now() == Stopped(old(Now()), ids)
    {
      hide TimersMatch, Stopped, StoppedOne;
      ghost var was := Now();
      var left := ids;
      StopNone(was);
      assert ids - left == {};
      while left != {}
        invariant left <= ids
        invariant Now() == Stopped(was, ids - left)
        decreases |left|
      {
        var id :| id in left;
        StopOne(was, ids - left, id);
        Stop(id);
        assert ids - left + {id} == ids - (left - {id});
        left := left - {id};
      }
      assert ids - left == ids;
    }

    ghost method Guarding()
      modifies this`guards
      ensures Now() == Guarded(old(Now()))
    {
      guards := guards + {Guard(generation, store)};
    }

    method SetAccounts(ids: seq<Id>)
      requires Inv(Now()) && haltedAt.Before(listedAt)
      modifies this
      ensures Now() == Listed(old(Now()), ids)
    {
      AddKeeps(Now(), ids);
      Sequences.From0(ids);
      hide Inv, TimersMatch;
      for i := 0 to |ids|
        invariant Added(Now(), ids[i..]) == Added(old(Now()), ids)
      {
        Sequences.Front(ids, i);
        if ids[i] !in accounts {
          accounts := accounts[ids[i] := Account(None, 0)];
          Schedule(ids[i], 0);
        }
      }
      var gone := set id | id in accounts && id !in ids;
      StopEach(gone);
      if gone != {} {
        Guarding();
      }
    }

    method Halt(now: int) returns (stopped: set<Id>)
      requires TimersMatch(Now())
      modifies this
      ensures stopped == old(accounts).Keys && Now() == Halted(old(Now()), now)
    {
      stopped := accounts.Keys;
      StopEach(stopped);
      haltedAt := Since(now);
      generation := generation + 1;
    }

    /** The store was replaced: the accounts start over. */
    method Restart(now: int)
      requires Inv(Now())
      modifies this
      ensures Inv(Now()) && Now() == Restarted(old(Now()), now)
    {
      RestartKeeps(Now(), now);
      store := store + 1;
      var _ := Halt(now);
      haltedAt := Never;
      listedAt := Never;
    }

    method Attach(listed: int, ids: seq<Id>, replaced: bool, now: int)
      requires Inv(Now())
      modifies this
      ensures Inv(Now()) && Now() == Step(old(Now()), Event.Attach(listed, ids, replaced, now))
    {
      StepKeeps(Now(), Event.Attach(listed, ids, replaced, now));
      hide Inv, Restarted, Listed;
      if replaced {
        Restart(now);
      }
      if !Since(listed).Before(listedAt) && haltedAt.Before(Since(listed)) {
        NamedKeeps(Now(), Since(listed));
        listedAt := Since(listed);
        SetAccounts(ids);
      }
    }

    method PollIfStale(id: Id, stale: Option<int>)
      requires id in accounts
      modifies this
      ensures Now() == PolledNow(old(Now()), [id], stale)
    {
      var account := accounts[id];
      if account.timer.Some? && (stale.None? || account.lastPoll <= stale.value) {
        Schedule(id, 0);
      }
    }

    /** Polls at once every account whose last poll began at `stale` or earlier. */
    method PollNow(stale: Option<int>) returns (ghost order: seq<Id>)
      requires Inv(Now())
      modifies this
      ensures Inv(Now()) && Now() == Step(old(Now()), PollAll(order, stale))
      ensures forall id :: id in order <==> id in old(accounts)
      ensures forall i, j :: 0 <= i < j < |order| ==> order[i] != order[j]
    {
      hide PolledNow, Inv;
      order := [];
      PolledNone(Now(), stale);
      ghost var was := Now();
      ghost var ids := accounts.Keys;
      var left := accounts.Keys;
      while left != {}
        invariant Now() == PolledNow(was, order, stale)
        invariant accounts.Keys == ids && left <= ids
        invariant forall id :: id in order <==> id in ids - left
        invariant forall i, j :: 0 <= i < j < |order| ==> order[i] != order[j]
        decreases |left|
      {
        var id :| id in left;
        assert id !in ids - left;
        PolledThen(was, order, id, stale);
        PolledSame(Now(), [id], stale);
        PollIfStale(id, stale);
        order := order + [id];
        left := left - {id};
      }
      PollNowKeeps(was, order, stale);
    }

    /** A tab came to the front: what was not polled for ten seconds polls now. */
    method Focus(now: int) returns (ghost order: seq<Id>)
      requires Inv(Now())
      modifies this
      ensures Inv(Now()) && Now() == Step(old(Now()), PollAll(order, Some(now - 10_000)))
      ensures forall id :: id in order <==> id in old(accounts)
    {
      order := PollNow(Some(now - FOCUS_POLL_GAP_MS));
    }

    /** The network is back: every account that waits polls now. */
    method Online() returns (ghost order: seq<Id>)
      requires Inv(Now())
      modifies this
      ensures Inv(Now()) && Now() == Step(old(Now()), PollAll(order, None))
      ensures forall id :: id in order <==> id in old(accounts)
    {
      order := PollNow(None);
    }

    /** The timer of an account rings: its poll begins. */
    method PollBegins(timer: nat, now: int)
      requires Inv(Now()) && timer in armed
      modifies this
      ensures Inv(Now()) && Now() == Step(old(Now()), Fire(timer, now))
    {
      StepKeeps(Now(), Fire(timer, now));
      var id := armed[timer].id;
      armed := armed - {timer};
      if id !in accounts {
        return;
      }
      accounts := accounts[id := Account(None, now)];
      Guarding();
      polls := polls + [Poll(id, generation, false)];
    }

    /** What a poll does with its answer; `begun` is the generation it keeps. */
    method PollAnswers(ghost i: nat, begun: nat, outcome: Outcome, now: int) returns (goesOn: bool)
      requires Inv(Now()) && i < |polls| && !polls[i].delaying && polls[i].generation == begun
      modifies this
      ensures Inv(Now()) && Now() == Step(old(Now()), Answer(i, outcome, now))
      ensures goesOn <==> begun == old(generation) && outcome != Unauthenticated
    {
      StepKeeps(Now(), Answer(i, outcome, now));
      if begun != generation {
        polls := polls[..i] + polls[i + 1..];
        return false;
      }
      if outcome.Unauthenticated? {
        polls := polls[..i] + polls[i + 1..];
        var stopped := Halt(now);
        if stopped != {} {
          Guarding();
        }
        return false;
      }
      polls := polls[i := polls[i].(delaying := true)];
      goesOn := true;
    }

    method PollEnds(ghost i: nat, id: Id, syncing: bool)
      requires Inv(Now()) && i < |polls| && polls[i].delaying && polls[i].id == id
      modifies this
      ensures Inv(Now()) && Now() == Step(old(Now()), Delayed(i, syncing))
    {
      StepKeeps(Now(), Delayed(i, syncing));
      polls := polls[..i] + polls[i + 1..];
      Schedule(id, if syncing then FIRST_SYNC_POLL_MS else CHANGES_POLL_MS);
    }

    /** The guarded store's commit, its gate and check passed in one step. */
    method Commit(ghost guard: Guard, begun: nat) returns (ok: bool)
      requires Inv(Now()) && persisted && guard in guards && guard.generation == begun
      modifies this`writes
      ensures Inv(Now()) && Now() == Step(old(Now()), Event.Commit(guard))
      ensures ok <==> begun == generation
      ensures ok <==> |writes| == |old(writes)| + 1
    {
      StepKeeps(Now(), Event.Commit(guard));
      if begun != generation {
        return false;
      }
      writes := writes + [Write(guard, generation, store)];
      ok := true;
    }

    method Clear(now: int)
      requires Inv(Now())
      modifies this
      ensures Inv(Now()) && Now() == Step(old(Now()), Event.Clear(now))
    {
      StepKeeps(Now(), Event.Clear(now));
      var _ := Halt(now);
    }
  }

  lemma StopNone(s: State)
    ensures Stopped(s, {}) == s
  {
    assert TimersOf(s, {}) == {};
    assert s.accounts - {} == s.accounts && s.armed - {} == s.armed;
  }

  lemma StopOne(s: State, done: set<Id>, id: Id)
    requires TimersMatch(s) && id !in done
    ensures Stopped(s, done + {id}) == StoppedOne(Stopped(s, done), id)
  {
    assert s.accounts - (done + {id}) == s.accounts - done - {id};
    if id in s.accounts && s.accounts[id].timer.Some? {
      assert TimersOf(s, done + {id}) == TimersOf(s, done) + {s.accounts[id].timer.value};
    } else {
      assert TimersOf(s, done + {id}) == TimersOf(s, done);
    }
  }

  lemma {:induction false} PolledThen(s: State, order: seq<Id>, id: Id, stale: Option<int>)
    ensures PolledNow(s, order + [id], stale) == PolledNow(PolledNow(s, order, stale), [id], stale)
    decreases |order|
  {
    if order != [] {
      var first := order[0];
      assert (order + [id])[1..] == order[1..] + [id];
      PolledThen(
        if first in s.accounts && s.accounts[first].timer.Some?
          && (stale.None? || s.accounts[first].lastPoll <= stale.value)
        then Scheduled(s, first, 0) else s,
        order[1..], id, stale);
    } else {
      assert order + [id] == [id];
    }
  }
}

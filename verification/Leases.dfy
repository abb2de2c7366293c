/** The lease protocol that keeps a destroy takeable back: one counted lock
    per tab, the workers' patch log with its held rows, and flushes that
    release what no live tab holds. An account's lock makes the work under it
    one event, but a flush reads the leases and releases in two. */
module Leases {
  import opened Wrappers
  import Sequences

  type Tab = string
  type Account = string

  // ---------------------------------------------------------------------
  // A tab's lease
  // ---------------------------------------------------------------------

  /** `wanted` is a lock request in use, `ending` the released ones the
      browser still holds. */
  datatype Lease = Lease(holds: nat, wanted: bool, granted: bool, ending: nat) {
    predicate Seen() {
      granted || ending > 0
    }

    function Held(): Lease {
      if wanted then this.(holds := holds + 1) else Lease(holds + 1, true, false, ending)
    }

    function Let(): Lease {
      var left := if holds == 0 then 0 else holds - 1;
      if left == 0 && wanted then Lease(left, false, false, ending + 1) else this.(holds := left)
    }
  }

  const FREE := Lease(0, false, false, 0)

  // ---------------------------------------------------------------------
  // The patch log of an account
  // ---------------------------------------------------------------------

  datatype Row = Row(held: bool, lease: Option<Tab>)

  type Log = map<nat, Row>

  /** The last number of a log, 0 for an empty one. */
  ghost function Last(numbers: set<nat>): (last: nat)
    ensures numbers == {} ==> last == 0
    ensures numbers != {} ==> last in numbers
    ensures forall n :: n in numbers ==> n <= last
  {
    if numbers == {} then 0
    else
      var n :| n in numbers;
      var rest := numbers - {n};
      assert numbers == rest + {n};
      if rest == {} || Last(rest) < n then n else Last(rest)
  }

  /** So many numbers on from the first. */
  function Numbers(first: nat, count: nat): (numbers: set<nat>)
    ensures forall n :: n in numbers <==> first <= n < first + count
  {
    if count == 0 then {} else Numbers(first, count - 1) + {first + count - 1}
  }

  function RowOf(held: bool, lease: Option<Tab>): Row {
    Row(held, if held then lease else None)
  }

  function AppendedFrom(log: Log, first: nat, kinds: seq<bool>, lease: Option<Tab>): Log {
    log + map n | n in Numbers(first, |kinds|) :: RowOf(kinds[n - first], lease)
  }

  function HeldFrom(first: nat, kinds: seq<bool>): set<nat> {
    set n | n in Numbers(first, |kinds|) && kinds[n - first]
  }

  function HeldOne(kind: bool, n: nat): set<nat> {
    if kind then {n} else {}
  }

  /** The rows a call logs behind the last one: a destroy waits held. */
  ghost function Appended(log: Log, kinds: seq<bool>, lease: Option<Tab>): Log {
    AppendedFrom(log, Last(log.Keys) + 1, kinds, lease)
  }

  ghost function NewlyHeld(log: Log, kinds: seq<bool>): set<nat> {
    HeldFrom(Last(log.Keys) + 1, kinds)
  }

  lemma AppendEnds(log: Log, first: nat, kinds: seq<bool>, lease: Option<Tab>)
    ensures AppendedFrom(log, first, kinds[..0], lease) == log && HeldFrom(first, kinds[..0]) == {}
    ensures AppendedFrom(log, first, kinds[..|kinds|], lease) == AppendedFrom(log, first, kinds, lease)
    ensures HeldFrom(first, kinds[..|kinds|]) == HeldFrom(first, kinds)
  {
    Sequences.Ends(kinds);
  }

  lemma AppendNext(log: Log, first: nat, kinds: seq<bool>, i: nat, lease: Option<Tab>)
    requires i < |kinds|
    ensures AppendedFrom(log, first, kinds[..i + 1], lease)
      == AppendedFrom(log, first, kinds[..i], lease)[first + i := RowOf(kinds[i], lease)]
    ensures HeldFrom(first, kinds[..i + 1]) == HeldFrom(first, kinds[..i]) + HeldOne(kinds[i], first + i)
  {
    hide Numbers;
  }

  function Released(log: Log, numbers: set<nat>): Log {
    map n | n in log :: if n in numbers then log[n].(held := false) else log[n]
  }

  function LapsedIn(log: Log, live: set<Tab>): set<nat> {
    set n | n in log && log[n].held && (log[n].lease.None? || log[n].lease.value !in live)
  }

  function HeldIn(log: Log, numbers: set<nat>): set<nat> {
    set n | n in log && log[n].held && n in numbers
  }

  // ---------------------------------------------------------------------
  // The whole: tabs, workers, flushes
  // ---------------------------------------------------------------------

  /** A destroying change of a tab: it waits for the lease, is asked of the
      worker, holds the destroys it logged until one release or drop settles,
      and then lets the lease. */
  datatype Phase = Waiting | Asked | Holding(numbers: set<nat>) | Ending

  datatype Call = Call(tab: Tab, account: Account, phase: Phase)

  datatype Flush = Begun | Read(live: set<Tab>)

  datatype State = State(
    leases: map<Tab, Lease>,
    closed: set<Tab>,
    calls: map<nat, Call>,
    next: nat,
    logs: map<Account, Log>,
    flushes: map<Account, Flush>)

  const INITIAL := State(map[], {}, map[], 0, map[], map[])

  function LeaseOf(s: State, tab: Tab): Lease {
    if tab in s.leases then s.leases[tab] else FREE
  }

  function LogOf(s: State, account: Account): Log {
    if account in s.logs then s.logs[account] else map[]
  }

  function Live(s: State): set<Tab> {
    set tab | tab in s.leases && s.leases[tab].Seen()
  }

  datatype Event =
    | Hold(tab: Tab, account: Account)
    | Grant(tab: Tab)
    | GiveBack(tab: Tab)
    | Ask(call: nat)
    | LogChange(call: nat, kinds: seq<bool>)
    | Refuse(call: nat)
    | Settle(call: nat, drop: bool, ok: bool)
    | LetGo(call: nat)
    | Close(tab: Tab)
    | Stray(account: Account, kinds: seq<bool>, lease: Option<Tab>)
    | FlushBegins(account: Account)
    | FlushReads(account: Account)
    | FlushReleases(account: Account, ok: bool)
    | FlushSends(account: Account, numbers: set<nat>)
    | FlushEnds(account: Account)
    | Vanish(account: Account, numbers: set<nat>)

  predicate In(s: State, call: nat, phase: Phase) {
    call in s.calls && s.calls[call].phase == phase
  }

  predicate Enabled(s: State, e: Event) {
    match e
    case Hold(tab, _) => tab !in s.closed
    case Grant(tab) => tab in s.leases && s.leases[tab].wanted && !s.leases[tab].granted && s.leases[tab].ending == 0
    case GiveBack(tab) => tab in s.leases && s.leases[tab].ending > 0
    case Ask(call) => In(s, call, Waiting) && LeaseOf(s, s.calls[call].tab).granted
    case LogChange(call, _) => In(s, call, Asked) && s.calls[call].account !in s.flushes
    case Refuse(call) => In(s, call, Asked)
    case Settle(call, _, ok) =>
      call in s.calls && s.calls[call].phase.Holding? && (ok ==> s.calls[call].account !in s.flushes)
    case LetGo(call) => In(s, call, Ending)
    case Close(tab) => true
    case Stray(account, _, lease) => account !in s.flushes && (lease.Some? ==> lease.value in s.closed)
    case FlushBegins(account) => account !in s.flushes
    case FlushReads(account) => account in s.flushes && s.flushes[account].Begun?
    case FlushReleases(account, _) => account in s.flushes && s.flushes[account].Read?
    case FlushSends(account, _) => account in s.flushes
    case FlushEnds(account) => account in s.flushes
    case Vanish(account, _) => account !in s.flushes
  }

  function Moved(s: State, call: nat, phase: Phase): State
    requires call in s.calls
  {
    s.(calls := s.calls[call := s.calls[call].(phase := phase)])
  }

  function Settled(log: Log, numbers: set<nat>, drop: bool): Log {
    var held := HeldIn(log, numbers);
    if drop then log - held else Released(log, held)
  }

  ghost function Step(s: State, e: Event): State
    requires Enabled(s, e)
  {
    match e
    case Hold(tab, account) =>
      s.(
        leases := s.leases[tab := LeaseOf(s, tab).Held()],
        calls := s.calls[s.next := Call(tab, account, Waiting)],
        next := s.next + 1)
    case Grant(tab) => s.(leases := s.leases[tab := s.leases[tab].(granted := true)])
    case GiveBack(tab) => s.(leases := s.leases[tab := s.leases[tab].(ending := s.leases[tab].ending - 1)])
    case Ask(call) => Moved(s, call, Asked)
    case LogChange(call, kinds) =>
      var c := s.calls[call];
      var log := LogOf(s, c.account);
      var held := NewlyHeld(log, kinds);
      Moved(s, call, if held == {} then Ending else Phase.Holding(held))
        .(logs := s.logs[c.account := Appended(log, kinds, Some(c.tab))])
    case Refuse(call) => Moved(s, call, Ending)
    case Settle(call, drop, ok) =>
      var c := s.calls[call];
      if ok then
        Moved(s, call, Ending).(logs := s.logs[c.account := Settled(LogOf(s, c.account), c.phase.numbers, drop)])
      else Moved(s, call, Ending)
    case LetGo(call) =>
      var tab := s.calls[call].tab;
      s.(leases := s.leases[tab := LeaseOf(s, tab).Let()], calls := s.calls - {call})
    case Close(tab) =>
      s.(
        leases := s.leases - {tab},
        closed := s.closed + {tab},
        calls := map id | id in s.calls && s.calls[id].tab != tab :: s.calls[id])
    case Stray(account, kinds, lease) =>
      s.(logs := s.logs[account := Appended(LogOf(s, account), kinds, lease)])
    case FlushBegins(account) => s.(flushes := s.flushes[account := Begun])
    case FlushReads(account) => s.(flushes := s.flushes[account := Read(Live(s))])
    case FlushReleases(account, ok) =>
      if ok then
        var log := LogOf(s, account);
        s.(logs := s.logs[account := Released(log, LapsedIn(log, s.flushes[account].live))])
      else s
    case FlushSends(account, numbers) =>
      var log := LogOf(s, account);
      s.(logs := s.logs[account := log - (set n | n in log && n in numbers && !log[n].held)])
    case FlushEnds(account) => s.(flushes := s.flushes - {account})
    case Vanish(account, numbers) => s.(logs := s.logs[account := LogOf(s, account) - numbers])
  }

  // ---------------------------------------------------------------------
  // What every event keeps
  // ---------------------------------------------------------------------

  function CallsOf(s: State, tab: Tab): set<nat> {
    set id | id in s.calls && s.calls[id].tab == tab
  }

  /** The lock is wanted exactly while a hold stands, one hold per call. */
  predicate Counted(s: State, tab: Tab) {
    var lease := LeaseOf(s, tab);
    && lease.holds == |CallsOf(s, tab)|
    && (lease.wanted <==> lease.holds > 0)
    && (lease.granted ==> lease.wanted)
  }

  predicate Fits(s: State, id: nat)
    requires id in s.calls
  {
    var call := s.calls[id];
    && id < s.next
    && call.tab !in s.closed
    && call.tab in s.leases
    && (!call.phase.Waiting? ==> LeaseOf(s, call.tab).granted)
    && (call.phase.Holding? && call.account in s.flushes && s.flushes[call.account].Read? ==>
          call.tab in s.flushes[call.account].live)
  }

  ghost predicate Inv(s: State) {
    && (forall tab :: Counted(s, tab))
    && (forall id :: id in s.calls ==> Fits(s, id))
    && (forall tab :: tab in s.closed ==> tab !in s.leases)
  }

  lemma OneMore(a: set<nat>, id: nat)
    requires id !in a
    ensures |a + {id}| == |a| + 1
  {
  }

  lemma CallsGrow(s: State, t: State, tab: Tab, id: nat)
    requires id !in s.calls && t.calls.Keys == s.calls.Keys + {id}
    requires forall k :: k in s.calls ==> t.calls[k].tab == s.calls[k].tab
    ensures tab == t.calls[id].tab ==> CallsOf(t, tab) == CallsOf(s, tab) + {id}
    ensures tab != t.calls[id].tab ==> CallsOf(t, tab) == CallsOf(s, tab)
  {
  }

  lemma CountOne(s: State, t: State, tab: Tab, id: nat)
    requires id !in s.calls && t.calls.Keys == s.calls.Keys + {id}
    requires forall k :: k in s.calls ==> t.calls[k].tab == s.calls[k].tab
    ensures |CallsOf(t, tab)| == |CallsOf(s, tab)| + if tab == t.calls[id].tab then 1 else 0
  {
    CallsGrow(s, t, tab, id);
    assert id !in CallsOf(s, tab);
    hide CallsOf;
    if tab == t.calls[id].tab {
      OneMore(CallsOf(s, tab), id);
    }
  }

  lemma CountSame(s: State, t: State, tab: Tab)
    requires t.calls.Keys == s.calls.Keys
    requires forall k :: k in s.calls ==> t.calls[k].tab == s.calls[k].tab
    ensures CallsOf(t, tab) == CallsOf(s, tab)
  {
  }

  lemma HoldKeeps(s: State, tab: Tab, account: Account)
    requires Inv(s) && tab !in s.closed
    ensures Inv(Step(s, Hold(tab, account)))
  {
    var t := Step(s, Hold(tab, account));
    assert s.next !in s.calls;
    forall other ensures Counted(t, other) {
      assert Counted(s, other);
      CountOne(s, t, other, s.next);
    }
    assert forall id :: id in s.calls ==> Fits(s, id);
    assert Counted(s, tab);
    forall id | id in t.calls ensures Fits(t, id) {
      if id != s.next {
        assert Fits(s, id);
      }
    }
  }

  lemma LetGoKeeps(s: State, call: nat)
    requires Inv(s) && In(s, call, Ending)
    ensures Inv(Step(s, LetGo(call)))
  {
    var t := Step(s, LetGo(call));
    var tab := s.calls[call].tab;
    forall other ensures Counted(t, other) {
      assert Counted(s, other);
      CountOne(t, s, other, call);
    }
    forall id | id in t.calls ensures Fits(t, id) {
      assert Fits(s, id);
      if s.calls[id].tab == tab {
        assert id in CallsOf(t, tab);
        assert Counted(t, tab);
      }
    }
    assert Fits(s, call);
  }

  lemma CloseKeeps(s: State, tab: Tab)
    requires Inv(s)
    ensures Inv(Step(s, Close(tab)))
  {
    var t := Step(s, Close(tab));
    forall other ensures Counted(t, other) {
      assert Counted(s, other);
      assert CallsOf(t, other) == if other == tab then {} else CallsOf(s, other);
    }
    forall id | id in t.calls ensures Fits(t, id) {
      assert Fits(s, id);
    }
  }

  /** An event that keeps every lease's count and grants keeps the rest when
      its calls fit. */
  lemma CallsKeep(s: State, t: State)
    requires Inv(s) && t.closed == s.closed && t.next == s.next
    requires t.calls.Keys == s.calls.Keys && t.leases.Keys == s.leases.Keys
    requires forall id :: id in s.calls ==> t.calls[id].tab == s.calls[id].tab && Fits(t, id)
    requires forall tab :: tab in s.leases ==>
      t.leases[tab].holds == s.leases[tab].holds && t.leases[tab].wanted == s.leases[tab].wanted
      && (t.leases[tab].granted ==> t.leases[tab].wanted)
    ensures Inv(t)
  {
    forall tab ensures Counted(t, tab) {
      assert Counted(s, tab);
      CountSame(s, t, tab);
    }
  }

  predicate OfCall(e: Event) {
    e.Ask? || e.LogChange? || e.Refuse? || e.Settle?
  }

  predicate OfLock(e: Event) {
    e.Grant? || e.GiveBack?
  }

  lemma CallFits(s: State, e: Event, id: nat)
    requires Inv(s) && Enabled(s, e) && OfCall(e) && id in s.calls
    ensures id in Step(s, e).calls && Step(s, e).calls[id].tab == s.calls[id].tab && Fits(Step(s, e), id)
  {
    assert Fits(s, id);
  }

  lemma LockFits(s: State, e: Event, id: nat)
    requires Inv(s) && Enabled(s, e) && OfLock(e) && id in s.calls
    ensures Fits(Step(s, e), id)
  {
    assert Fits(s, id);
  }

  /** A holding call's tab is among the leases a flush reads. */
  lemma RestFits(s: State, e: Event, id: nat)
    requires Inv(s) && Enabled(s, e) && !OfCall(e) && !OfLock(e)
    requires !e.Hold? && !e.LetGo? && !e.Close? && id in s.calls
    ensures Step(s, e).calls == s.calls && Step(s, e).leases == s.leases
    ensures Step(s, e).closed == s.closed && Step(s, e).next == s.next
    ensures Fits(Step(s, e), id)
  {
    assert Fits(s, id);
  }

  lemma CountsStand(s: State, tab: Tab)
    requires Inv(s) && tab in s.leases
    ensures s.leases[tab].granted ==> s.leases[tab].wanted
  {
    assert Counted(s, tab);
  }

  lemma StepKeeps(s: State, e: Event)
    requires Inv(s) && Enabled(s, e)
    ensures Inv(Step(s, e))
  {
    if e.Hold? {
      HoldKeeps(s, e.tab, e.account);
    } else if e.LetGo? {
      LetGoKeeps(s, e.call);
    } else if e.Close? {
      CloseKeeps(s, e.tab);
    } else {
      hide Counted, Fits;
      var t := Step(s, e);
      forall id | id in s.calls
        ensures id in t.calls && t.calls[id].tab == s.calls[id].tab && Fits(t, id)
      {
        if OfCall(e) {
          CallFits(s, e, id);
        } else if OfLock(e) {
          LockFits(s, e, id);
        } else {
          RestFits(s, e, id);
        }
      }
      forall tab | tab in s.leases
        ensures s.leases[tab].granted ==> s.leases[tab].wanted
      {
        CountsStand(s, tab);
      }
      CallsKeep(s, t);
    }
  }

  // ---------------------------------------------------------------------
  // A row by its number, event by event
  // ---------------------------------------------------------------------

  function RowAt(s: State, account: Account, n: nat): Option<Row> {
    if n in LogOf(s, account) then Some(LogOf(s, account)[n]) else None
  }

  /** An undo takes the rows of its numbers that still wait out of the log; the
      toast's end lets them go out, each still on its lease. A row released
      before, and every other row, stays as it is. */
  lemma SettleRows(s: State, call: nat, drop: bool, account: Account, n: nat)
    requires Enabled(s, Settle(call, drop, true))
    ensures var c := s.calls[call];
      var was, left := RowAt(s, account, n), RowAt(Step(s, Settle(call, drop, true)), account, n);
      left == if account != c.account || was.None? || n !in c.phase.numbers || !was.value.held then was
              else if drop then None
              else Some(Row(false, was.value.lease))
  {
  }

  /** A flush lets go the rows that wait on no lease it read, and sends what
      waits no longer; it changes no other row. */
  lemma FlushRows(s: State, e: Event, account: Account, n: nat)
    requires Enabled(s, e)
    requires e.FlushReleases? || e.FlushSends?
    ensures var was, left := RowAt(s, account, n), RowAt(Step(s, e), account, n);
      left ==
        if account != e.account || was.None? then was
        else if e.FlushReleases? then
          if e.ok && was.value.held && (was.value.lease.None? || was.value.lease.value !in s.flushes[account].live)
          then Some(Row(false, was.value.lease)) else was
        else if n in e.numbers && !was.value.held then None else was
  {
  }

  /** The rows and the held numbers of a change, number by number. */
  lemma AppendedAt(log: Log, kinds: seq<bool>, lease: Option<Tab>, last: nat, n: nat)
    requires (last == 0 || last in log) && forall m :: m in log ==> m <= last
    ensures var rows := Appended(log, kinds, lease);
      && (n in rows <==> n in log || last < n <= last + |kinds|)
      && (n in log ==> rows[n] == log[n])
      && (last < n <= last + |kinds| ==>
            rows[n] == Row(kinds[n - last - 1], if kinds[n - last - 1] then lease else None))
    ensures n in NewlyHeld(log, kinds) <==> last < n <= last + |kinds| && kinds[n - last - 1]
  {
    assert forall m :: m in log <==> m in log.Keys;
    LastIs(log.Keys, last);
  }

  /** Logging leaves what was logged, and the destroys among its own rows wait. */
  lemma AppendedAll(log: Log, kinds: seq<bool>, lease: Option<Tab>)
    ensures var rows := Appended(log, kinds, lease);
      && (forall n :: n in log ==> n in rows && rows[n] == log[n])
      && (forall n :: n in NewlyHeld(log, kinds) <==> n in rows && n !in log && rows[n].held)
  {
    assert forall m :: m in log <==> m in log.Keys;
    forall n: nat
      ensures n in log ==> n in Appended(log, kinds, lease) && Appended(log, kinds, lease)[n] == log[n]
      ensures n in NewlyHeld(log, kinds) <==>
        n in Appended(log, kinds, lease) && n !in log && Appended(log, kinds, lease)[n].held
    {
      AppendedAt(log, kinds, lease, Last(log.Keys), n);
    }
  }

  /** A change takes the numbers behind every row of its log, in order: a
      destroy waits on its tab's lease, any other row waits for nothing. */
  lemma ChangeRows(s: State, call: nat, kinds: seq<bool>, last: nat, n: nat)
    requires Enabled(s, LogChange(call, kinds))
    requires var log := LogOf(s, s.calls[call].account);
      (last == 0 || last in log) && forall m :: m in log ==> m <= last
    ensures var c, t := s.calls[call], Step(s, LogChange(call, kinds));
      && RowAt(t, c.account, n) ==
           (if last < n <= last + |kinds| then
              Some(Row(kinds[n - last - 1], if kinds[n - last - 1] then Some(c.tab) else None))
            else RowAt(s, c.account, n))
      && (last < n <= last + |kinds| && kinds[n - last - 1] ==> t.calls[call].phase.Holding?)
      && (t.calls[call].phase.Holding? ==>
            (n in t.calls[call].phase.numbers <==> last < n <= last + |kinds| && kinds[n - last - 1]))
  {
    AppendedAt(LogOf(s, s.calls[call].account), kinds, Some(s.calls[call].tab), last, n);
    hide Appended, NewlyHeld;
  }

  /** However an answer ends, or is refused, its call gives its hold back next:
      one hold fewer, and with the last of them the lock is let go. */
  lemma EndedLetsGo(s: State, e: Event)
    requires Inv(s) && Enabled(s, e) && (e.Settle? || e.Refuse?)
    ensures Enabled(Step(s, e), LetGo(e.call))
    ensures var t := Step(Step(s, e), LetGo(e.call));
      var tab := s.calls[e.call].tab;
      && t.calls == s.calls - {e.call}
      && LeaseOf(t, tab).holds == LeaseOf(s, tab).holds - 1
      && (LeaseOf(t, tab).wanted <==> LeaseOf(t, tab).holds > 0)
      && LeaseOf(t, tab).ending == LeaseOf(s, tab).ending + (if LeaseOf(t, tab).holds > 0 then 0 else 1)
      && forall other :: other != tab ==> LeaseOf(t, other) == LeaseOf(s, other)
  {
    var tab := s.calls[e.call].tab;
    assert Fits(s, e.call) && Counted(s, tab);
    assert e.call in CallsOf(s, tab);
  }

  // ---------------------------------------------------------------------
  // From the logging of a destroy to the end of its answer
  // ---------------------------------------------------------------------

  predicate HoldsIn(s: State, id: nat, account: Account) {
    id in s.calls && s.calls[id].phase.Holding? && s.calls[id].account == account
  }

  /** The row of a destroy that only its own tab may end. */
  predicate Stands(s: State, id: nat, n: nat)
    requires id in s.calls
  {
    var log := LogOf(s, s.calls[id].account);
    n in log && log[n] == Row(true, Some(s.calls[id].tab))
  }

  predicate Hits(s: State, e: Event, account: Account, n: nat)
    requires Enabled(s, e)
  {
    || (e.Settle? && e.ok && s.calls[e.call].account == account && n in s.calls[e.call].phase.numbers)
    || (e.Vanish? && e.account == account && n in e.numbers)
  }

  /** While a call of a tab holds, a row held on that tab's lease loses its
      place only to an answer that settles its number or to the server's end
      of its email; no flush of any worker releases it as lapsed. */
  lemma RowStandsExactly(s: State, e: Event, id: nat, n: nat)
    requires Inv(s) && Enabled(s, e) && id in s.calls && s.calls[id].phase.Holding? && Stands(s, id, n)
    ensures var account := s.calls[id].account;
      var log := LogOf(Step(s, e), account);
      (n in log && log[n] == LogOf(s, account)[n]) <==> !Hits(s, e, account, n)
  {
    assert Fits(s, id);
  }

  lemma NoFlushReleasesIt(s: State, e: Event, id: nat, n: nat)
    requires Inv(s) && Enabled(s, e) && id in s.calls && s.calls[id].phase.Holding? && Stands(s, id, n)
    requires e.FlushBegins? || e.FlushReads? || e.FlushReleases? || e.FlushSends? || e.FlushEnds?
    ensures id in Step(s, e).calls && Stands(Step(s, e), id, n)
  {
    RowStandsExactly(s, e, id, n);
  }

  /** A call leaves its hold by its own answer or with its tab. */
  lemma HoldLasts(s: State, e: Event, id: nat)
    requires Inv(s) && Enabled(s, e) && id in s.calls && s.calls[id].phase.Holding?
    requires !(e.Settle? && e.call == id) && !(e.Close? && e.tab == s.calls[id].tab)
    ensures id in Step(s, e).calls && Step(s, e).calls[id] == s.calls[id]
  {
    assert Fits(s, id);
  }

  /** Every number an answer names is a destroy of its own that still waits. */
  ghost predicate Owned(s: State) {
    forall id, n :: id in s.calls && s.calls[id].phase.Holding? && n in s.calls[id].phase.numbers ==> Stands(s, id, n)
  }

  ghost predicate Apart(s: State) {
    forall id, other ::
      id != other && id in s.calls && s.calls[id].phase.Holding? && HoldsIn(s, other, s.calls[id].account) ==>
        s.calls[id].phase.numbers !! s.calls[other].phase.numbers
  }

  /** The server ends no email whose destroy an answer still holds. */
  ghost predicate Spares(s: State, e: Event) {
    e.Vanish? ==> forall id :: HoldsIn(s, id, e.account) ==> s.calls[id].phase.numbers !! e.numbers
  }

  lemma OwnedStands(s: State, id: nat, n: nat)
    requires Owned(s) && id in s.calls && s.calls[id].phase.Holding? && n in s.calls[id].phase.numbers
    ensures Stands(s, id, n)
  {
  }

  lemma NewIsBehind(log: Log, kinds: seq<bool>, n: nat)
    requires n in NewlyHeld(log, kinds)
    ensures Last(log.Keys) < n && n !in log
  {
  }

  /** Which holding calls an event leaves: the ones of before, and the one
      that logs. */
  lemma HoldersAfter(s: State, e: Event, id: nat)
    requires Enabled(s, e)
    requires id in Step(s, e).calls && Step(s, e).calls[id].phase.Holding?
    ensures var after := Step(s, e).calls[id];
      if e.LogChange? && e.call == id then
        In(s, id, Asked) && after == s.calls[id].(phase := after.phase)
        && after.phase.numbers == NewlyHeld(LogOf(s, after.account), e.kinds)
      else id in s.calls && after == s.calls[id] && !(e.Settle? && e.call == id)
  {
  }

  lemma OwnedKeeps(s: State, e: Event)
    requires Inv(s) && Owned(s) && Apart(s) && Enabled(s, e) && Spares(s, e)
    ensures Owned(Step(s, e))
  {
    var t := Step(s, e);
    forall id, n | id in t.calls && t.calls[id].phase.Holding? && n in t.calls[id].phase.numbers
      ensures Stands(t, id, n)
    {
      HoldersAfter(s, e, id);
      if !(e.LogChange? && e.call == id) {
        OwnedStands(s, id, n);
        RowStandsExactly(s, e, id, n);
        if e.Settle? && HoldsIn(s, e.call, s.calls[id].account) {
          assert s.calls[id].phase.numbers !! s.calls[e.call].phase.numbers;
        }
        if e.Vanish? && HoldsIn(s, id, e.account) {
          assert s.calls[id].phase.numbers !! e.numbers;
        }
      }
    }
  }

  lemma ApartKeeps(s: State, e: Event)
    requires Inv(s) && Owned(s) && Apart(s) && Enabled(s, e)
    ensures Apart(Step(s, e))
  {
    var t := Step(s, e);
    forall id, other |
      id != other && id in t.calls && t.calls[id].phase.Holding? && HoldsIn(t, other, t.calls[id].account)
      ensures t.calls[id].phase.numbers !! t.calls[other].phase.numbers
    {
      HoldersAfter(s, e, id);
      HoldersAfter(s, e, other);
      forall n | n in t.calls[id].phase.numbers
        ensures n !in t.calls[other].phase.numbers
      {
        if e.LogChange? && e.call == id {
          NewIsBehind(LogOf(s, t.calls[id].account), e.kinds, n);
          if n in t.calls[other].phase.numbers {
            OwnedStands(s, other, n);
          }
        } else if e.LogChange? && e.call == other {
          OwnedStands(s, id, n);
          if n in t.calls[other].phase.numbers {
            NewIsBehind(LogOf(s, t.calls[id].account), e.kinds, n);
          }
        } else {
          assert HoldsIn(s, other, s.calls[id].account);
          assert s.calls[id].phase.numbers !! s.calls[other].phase.numbers;
        }
      }
    }
  }

  // ---------------------------------------------------------------------
  // Every run
  // ---------------------------------------------------------------------

  ghost predicate Runs(s: State, events: seq<Event>)
    decreases |events|
  {
    events == [] || (Enabled(s, events[0]) && Runs(Step(s, events[0]), events[1..]))
  }

  ghost function After(s: State, events: seq<Event>): State
    requires Runs(s, events)
    decreases |events|
  {
    if events == [] then s else After(Step(s, events[0]), events[1..])
  }

  ghost predicate SparingRun(s: State, events: seq<Event>)
    requires Runs(s, events)
    decreases |events|
  {
    events == [] || (Spares(s, events[0]) && SparingRun(Step(s, events[0]), events[1..]))
  }

  lemma {:induction false} EveryRunFrom(s: State, events: seq<Event>)
    requires Inv(s) && Runs(s, events)
    ensures Inv(After(s, events))
    decreases |events|
  {
    hide Inv;
    if events != [] {
      StepKeeps(s, events[0]);
      EveryRunFrom(Step(s, events[0]), events[1..]);
    }
  }

  /** In every run, whatever tabs, workers and flushes do: a destroy that a
      live call holds is not released by the next event when that is any part
      of any flush. */
  lemma NoRunReleasesIt(events: seq<Event>, e: Event, id: nat, n: nat)
    requires Runs(INITIAL, events)
    requires var s := After(INITIAL, events);
      Enabled(s, e) && id in s.calls && s.calls[id].phase.Holding? && Stands(s, id, n)
    requires e.FlushBegins? || e.FlushReads? || e.FlushReleases? || e.FlushSends? || e.FlushEnds?
    ensures var t := Step(After(INITIAL, events), e);
      id in t.calls && Stands(t, id, n)
  {
    EveryRunFrom(INITIAL, events);
    NoFlushReleasesIt(After(INITIAL, events), e, id, n);
  }

  lemma {:induction false} SparingRunOwns(s: State, events: seq<Event>)
    requires Inv(s) && Owned(s) && Apart(s) && Runs(s, events) && SparingRun(s, events)
    ensures Owned(After(s, events)) && Apart(After(s, events))
    decreases |events|
  {
    hide Inv, Owned, Apart;
    if events != [] {
      StepKeeps(s, events[0]);
      OwnedKeeps(s, events[0]);
      ApartKeeps(s, events[0]);
      SparingRunOwns(Step(s, events[0]), events[1..]);
    }
  }

  /** As long as the server ends no email of a held destroy, every destroy an
      answer names stands, in every state of every run, until that answer. */
  lemma HeldUntilAnswered(events: seq<Event>, id: nat, n: nat)
    requires Runs(INITIAL, events) && SparingRun(INITIAL, events)
    requires var s := After(INITIAL, events);
      id in s.calls && s.calls[id].phase.Holding? && n in s.calls[id].phase.numbers
    ensures Stands(After(INITIAL, events), id, n)
    ensures var s := After(INITIAL, events);
      forall other :: other != id && HoldsIn(s, other, s.calls[id].account) ==> n !in s.calls[other].phase.numbers
  {
    SparingRunOwns(INITIAL, events);
    OwnedStands(After(INITIAL, events), id, n);
  }

  /** What no lease covers goes out: past the two steps of a flush every held
      row is held on a lease that was seen, and none on a closed tab's. */
  lemma LapsedGoOut(s: State, account: Account)
    requires Inv(s) && Enabled(s, FlushReads(account))
    ensures var t := Step(Step(s, FlushReads(account)), FlushReleases(account, true));
      forall n :: n in LogOf(t, account) && LogOf(t, account)[n].held ==>
        && LogOf(t, account)[n].lease.Some?
        && LogOf(t, account)[n].lease.value in Live(s)
        && LogOf(t, account)[n].lease.value !in s.closed
  {
  }

  /** A flush in full, of an account that has none: a held row waits on exactly
      when a browser still holds its tab's lock; of the others the ones sent
      leave the log and the rest go out with a later flush. */
  lemma FlushRound(s: State, account: Account, sent: set<nat>, n: nat)
    requires account !in s.flushes
    ensures var events := [FlushBegins(account), FlushReads(account), FlushReleases(account, true),
                           FlushSends(account, sent), FlushEnds(account)];
      && Runs(s, events)
      && var was, t := RowAt(s, account, n), After(s, events);
        && t.leases == s.leases && t.calls == s.calls && t.flushes == s.flushes
        && RowAt(t, account, n) ==
             if was.None? then None
             else if was.value.held && was.value.lease.Some? && was.value.lease.value in s.leases
               && (s.leases[was.value.lease.value].granted || s.leases[was.value.lease.value].ending > 0) then was
             else if n in sent then None
             else Some(Row(false, was.value.lease))
  {
    FlushOpens(s, account);
    var read := s.(flushes := s.flushes[account := Read(Live(s))]);
    var released := Step(read, FlushReleases(account, true));
    FlushRows(read, FlushReleases(account, true), account, n);
    FlushRows(released, FlushSends(account, sent), account, n);
    FlushRuns(s, account, sent);
  }

  lemma FlushOpens(s: State, account: Account)
    requires account !in s.flushes
    ensures Enabled(s, FlushBegins(account))
    ensures var begun := Step(s, FlushBegins(account));
      && Enabled(begun, FlushReads(account))
      && Step(begun, FlushReads(account)) == s.(flushes := s.flushes[account := Read(Live(s))])
  {
    var begun := s.(flushes := s.flushes[account := Begun]);
    assert Live(begun) == Live(s);
    assert begun.flushes[account := Read(Live(s))] == s.flushes[account := Read(Live(s))];
  }

  lemma FlushCloses(read: State, account: Account, sent: set<nat>)
    requires account in read.flushes && read.flushes[account].Read?
    ensures Enabled(read, FlushReleases(account, true))
    ensures var released := Step(read, FlushReleases(account, true));
      && Enabled(released, FlushSends(account, sent))
      && var left := Step(released, FlushSends(account, sent));
        && Enabled(left, FlushEnds(account))
        && Step(left, FlushEnds(account)) == read.(logs := left.logs, flushes := read.flushes - {account})
  {
  }

  lemma FlushRuns(s: State, account: Account, sent: set<nat>)
    requires account !in s.flushes
    ensures var events := [FlushBegins(account), FlushReads(account), FlushReleases(account, true),
                           FlushSends(account, sent), FlushEnds(account)];
      && Runs(s, events)
      && var read := s.(flushes := s.flushes[account := Read(Live(s))]);
        && Enabled(read, FlushReleases(account, true))
        && Enabled(Step(read, FlushReleases(account, true)), FlushSends(account, sent))
        && var left := Step(Step(read, FlushReleases(account, true)), FlushSends(account, sent));
          After(s, events) == s.(logs := left.logs)
  {
    FlushOpens(s, account);
    var begun := Step(s, FlushBegins(account));
    var read := s.(flushes := s.flushes[account := Read(Live(s))]);
    FlushCloses(read, account, sent);
    assert read.flushes - {account} == s.flushes;
    hide Step, Enabled, Live;
    var released := Step(read, FlushReleases(account, true));
    var left := Step(released, FlushSends(account, sent));
    var last := [FlushEnds(account)];
    One(left, FlushEnds(account));
    hide Runs, After;
    Ahead(released, FlushSends(account, sent), last);
    Ahead(read, FlushReleases(account, true), [FlushSends(account, sent)] + last);
    Ahead(begun, FlushReads(account), [FlushReleases(account, true)] + ([FlushSends(account, sent)] + last));
    Ahead(s, FlushBegins(account),
      [FlushReads(account)] + ([FlushReleases(account, true)] + ([FlushSends(account, sent)] + last)));
    Five(FlushBegins(account), FlushReads(account), FlushReleases(account, true), FlushSends(account, sent),
      FlushEnds(account));
  }

  lemma Five(a: Event, b: Event, c: Event, d: Event, e: Event)
    ensures [a] + ([b] + ([c] + ([d] + [e]))) == [a, b, c, d, e]
  {
  }

  lemma Ahead(s: State, e: Event, more: seq<Event>)
    requires Enabled(s, e) && Runs(Step(s, e), more)
    ensures Runs(s, [e] + more) && After(s, [e] + more) == After(Step(s, e), more)
  {
    hide Step, Enabled;
    One(s, e);
    RunOn(s, [e], more);
  }

  /** A call that waits for its lock comes to be asked: the browser gives back
      the locks that ended, grants the one that is wanted, and no other event is
      needed. */
  lemma {:induction false} WaitingIsAsked(s: State, call: nat) returns (events: seq<Event>)
    requires Inv(s) && In(s, call, Waiting)
    ensures Runs(s, events) && forall e :: e in events ==> OfLock(e)
    ensures Enabled(After(s, events), Ask(call))
    decreases LeaseOf(s, s.calls[call].tab).ending
  {
    var tab := s.calls[call].tab;
    assert Fits(s, call) && Counted(s, tab) && call in CallsOf(s, tab);
    if s.leases[tab].granted {
      events := [];
    } else if s.leases[tab].ending == 0 {
      events := [Grant(tab)];
      One(s, Grant(tab));
    } else {
      StepKeeps(s, GiveBack(tab));
      var more := WaitingIsAsked(Step(s, GiveBack(tab)), call);
      Ahead(s, GiveBack(tab), more);
      events := [GiveBack(tab)] + more;
    }
  }

  // ---------------------------------------------------------------------
  // Where numbers are used again
  // ---------------------------------------------------------------------

  /** A change of these kinds would give a row the number of a held answer. */
  ghost predicate Reuses(s: State, account: Account, kinds: seq<bool>) {
    exists id :: HoldsIn(s, id, account) && !(s.calls[id].phase.numbers !! NewlyHeld(LogOf(s, account), kinds))
  }

  /** Numbers go on from the last row, so no change ever reuses a number a
      held answer names exactly while the log still reaches past each. */
  lemma NumbersStayApartExactly(s: State, account: Account)
    ensures (forall kinds :: !Reuses(s, account, kinds))
      <==> forall id, n :: HoldsIn(s, id, account) && n in s.calls[id].phase.numbers ==>
        n <= Last(LogOf(s, account).Keys)
  {
    var log := LogOf(s, account);
    var last := Last(log.Keys);
    if id, n :| HoldsIn(s, id, account) && n in s.calls[id].phase.numbers && last < n {
      var kinds := seq(n - last, _ => true);
      assert n in NewlyHeld(log, kinds);
      assert Reuses(s, account, kinds);
    } else {
      forall kinds ensures !Reuses(s, account, kinds) {
        forall id | HoldsIn(s, id, account)
          ensures s.calls[id].phase.numbers !! NewlyHeld(log, kinds)
        {
          forall n | n in NewlyHeld(log, kinds) ensures n !in s.calls[id].phase.numbers {
            NewIsBehind(log, kinds, n);
          }
        }
      }
    }
  }

  lemma {:induction false} RunOn(s: State, first: seq<Event>, more: seq<Event>)
    requires Runs(s, first) && Runs(After(s, first), more)
    ensures Runs(s, first + more) && After(s, first + more) == After(After(s, first), more)
    decreases |first|
  {
    if first == [] {
      Sequences.Empty(more);
    } else {
      Sequences.Tail(first, more);
      RunOn(Step(s, first[0]), first[1..], more);
    }
  }

  lemma One(s: State, e: Event)
    requires Enabled(s, e)
    ensures Runs(s, [e]) && After(s, [e]) == Step(s, e)
  {
    assert Runs(Step(s, e), []);
    assert [e][1..] == [];
  }

  function Destroying(tab: Tab, account: Account, id: nat): seq<Event> {
    [Hold(tab, account)] + ([Grant(tab)] + ([Ask(id)] + [LogChange(id, [true])]))
  }

  lemma FirstHeld(log: Log, lease: Option<Tab>)
    requires log == map[]
    ensures Appended(log, [true], lease) == map[1 := Row(true, lease)] && NewlyHeld(log, [true]) == {1}
  {
    assert NewlyHeld(log, [true]) == {1};
  }

  /** A call that was asked logs its destroy as number one of an empty log. */
  lemma FirstLogged(s: State, id: nat)
    requires Enabled(s, LogChange(id, [true])) && LogOf(s, s.calls[id].account) == map[]
    ensures Step(s, LogChange(id, [true])) ==
      Moved(s, id, Phase.Holding({1})).(
        logs := s.logs[s.calls[id].account := map[1 := Row(true, Some(s.calls[id].tab))]])
  {
    FirstHeld(map[], Some(s.calls[id].tab));
    hide NewlyHeld, Appended;
  }

  /** A call of a granted lease asks and logs its destroy. */
  lemma LogRuns(s: State, id: nat)
    requires Enabled(s, Ask(id)) && LogOf(s, s.calls[id].account) == map[]
    requires Enabled(Step(s, Ask(id)), LogChange(id, [true]))
    ensures var events := [Ask(id)] + [LogChange(id, [true])];
      && Runs(s, events)
      && After(s, events) == Moved(s, id, Phase.Holding({1})).(
           logs := s.logs[s.calls[id].account := map[1 := Row(true, Some(s.calls[id].tab))]])
  {
    hide Runs, After;
    var asked := Step(s, Ask(id));
    One(s, Ask(id));
    FirstLogged(asked, id);
    One(asked, LogChange(id, [true]));
    RunOn(s, [Ask(id)], [LogChange(id, [true])]);
  }

  /** A destroy a new tab asks of an empty log is logged as its number one. */
  lemma DestroyRuns(s: State, tab: Tab, account: Account)
    requires tab !in s.closed && tab !in s.leases && account !in s.flushes && LogOf(s, account) == map[]
    ensures Runs(s, Destroying(tab, account, s.next))
    ensures var t := After(s, Destroying(tab, account, s.next));
      && t.next == s.next + 1 && t.closed == s.closed && t.flushes == s.flushes
      && t.calls == s.calls[s.next := Call(tab, account, Phase.Holding({1}))]
      && t.leases.Keys == s.leases.Keys + {tab}
      && LogOf(t, account) == map[1 := Row(true, Some(tab))]
  {
    hide Runs, After;
    var id := s.next;
    var held := Step(s, Hold(tab, account));
    One(s, Hold(tab, account));
    var granted := Step(held, Grant(tab));
    One(held, Grant(tab));
    LogRuns(granted, id);
    RunOn(held, [Grant(tab)], [Ask(id)] + [LogChange(id, [true])]);
    RunOn(s, [Hold(tab, account)], [Grant(tab)] + ([Ask(id)] + [LogChange(id, [true])]));
  }

  /** Without that condition the promise fails: once a job destroyed the email
      of a held destroy on the server, the next destroy takes its number, and
      the first tab's release lets the other tab's destroy go. */
  lemma AnotherTabsDestroyGoes(tab: Tab, other: Tab, account: Account)
    requires tab != other
    ensures var events := Destroying(tab, account, 0) + ([Vanish(account, {1})]
      + (Destroying(other, account, 1) + [Settle(0, false, true)]));
      Runs(INITIAL, events) &&
      var s := After(INITIAL, events);
      In(s, 1, Phase.Holding({1})) && s.calls[1].tab == other && !Stands(s, 1, 1)
  {
    hide Runs, After;
    DestroyRuns(INITIAL, tab, account);
    var first := After(INITIAL, Destroying(tab, account, 0));
    var gone := Step(first, Vanish(account, {1}));
    One(first, Vanish(account, {1}));
    DestroyRuns(gone, other, account);
    var second := After(gone, Destroying(other, account, 1));
    One(second, Settle(0, false, true));
    RunOn(gone, Destroying(other, account, 1), [Settle(0, false, true)]);
    RunOn(first, [Vanish(account, {1})], Destroying(other, account, 1) + [Settle(0, false, true)]);
    RunOn(INITIAL, Destroying(tab, account, 0),
      [Vanish(account, {1})] + (Destroying(other, account, 1) + [Settle(0, false, true)]));
  }

  // ---------------------------------------------------------------------
  // The source's objects
  // ---------------------------------------------------------------------

  /** The module's two variables in one tab; what the browser does with the
      requests is ghost. */
  class TabLease {
    var leaseLock: bool
    var leaseHolds: nat
    ghost var granted: bool
    ghost var ending: nat

    ghost function Now(): Lease
      reads this
    {
      Lease(leaseHolds, leaseLock, granted, ending)
    }

    constructor ()
      ensures Now() == FREE && !leaseLock && leaseHolds == 0
    {
      leaseLock, leaseHolds, granted, ending := false, 0, false, 0;
    }

    method HoldLease()
      requires granted ==> leaseLock
      modifies this
      ensures Now() == old(Now()).Held()
      ensures leaseHolds == old(leaseHolds) + 1 && leaseLock
      ensures granted == (old(leaseLock) && old(granted)) && ending == old(ending)
    {
      leaseHolds := leaseHolds + 1;
      if !leaseLock {
        leaseLock := true;
      }
    }

    method LetLease()
      modifies this
      ensures Now() == old(Now()).Let()
      ensures leaseHolds == if old(leaseHolds) <= 1 then 0 else old(leaseHolds) - 1
      ensures leaseLock <==> old(leaseLock) && leaseHolds > 0
      ensures ending == old(ending) + if old(leaseLock) && leaseHolds == 0 then 1 else 0
    {
      leaseHolds := if leaseHolds == 0 then 0 else leaseHolds - 1;
      if leaseHolds == 0 && leaseLock {
        leaseLock := false;
        granted, ending := false, ending + 1;
      }
    }
  }

  lemma LastIs(numbers: set<nat>, last: nat)
    requires last == 0 || last in numbers
    requires forall n :: n in numbers ==> n <= last
    ensures Last(numbers) == last
  {
  }

  /** The log of one account as the work under its lock changes it. */
  class PatchLog {
    var rows: Log

    constructor ()
      ensures rows == map[]
    {
      rows := map[];
    }

    method LastNumber() returns (last: nat)
      ensures last == Last(rows.Keys)
    {
      last := 0;
      var left := rows.Keys;
      while left != {}
        invariant left <= rows.Keys
        invariant last == 0 || last in rows.Keys
        invariant forall n :: n in rows.Keys && n !in left ==> n <= last
        decreases |left|
      {
        var n :| n in left;
        if n > last {
          last := n;
        }
        left := left - {n};
      }
      LastIs(rows.Keys, last);
    }

    /** Logs a row for each kind of change, the destroys held. */
    method MutateMany(kinds: seq<bool>, lease: Option<Tab>) returns (held: set<nat>)
      modifies this
      ensures rows == Appended(old(rows), kinds, lease) && held == NewlyHeld(old(rows), kinds)
      ensures forall n :: n in old(rows) ==> n in rows && rows[n] == old(rows)[n]
      ensures forall n :: n in held <==> n in rows && n !in old(rows) && rows[n].held
    {
      var last := LastNumber();
      AppendedAll(rows, kinds, lease);
      held := {};
      hide AppendedFrom, HeldFrom, HeldOne, Last, Numbers, RowOf;
      AppendEnds(rows, last + 1, kinds, lease);
      for i := 0 to |kinds|
        invariant rows == AppendedFrom(old(rows), last + 1, kinds[..i], lease)
        invariant held == HeldFrom(last + 1, kinds[..i])
      {
        AppendNext(old(rows), last + 1, kinds, i, lease);
        rows := rows[last + 1 + i := RowOf(kinds[i], lease)];
        held := held + HeldOne(kinds[i], last + 1 + i);
      }
    }

    /** Lets the held destroys of these numbers go out. */
    method ReleaseWhere(picked: set<nat>) returns (any: bool)
      requires picked <= rows.Keys
      modifies this
      ensures rows == Released(old(rows), picked)
      ensures rows.Keys == old(rows).Keys
      ensures forall n :: n in rows ==> rows[n] == Row(n !in picked && old(rows)[n].held, old(rows)[n].lease)
      ensures any <==> picked != {}
    {
      var left := picked;
      while left != {}
        invariant left <= picked
        invariant rows == Released(old(rows), picked - left)
        decreases |left|
      {
        var n :| n in left;
        rows := rows[n := rows[n].(held := false)];
        left := left - {n};
      }
      assert picked - left == picked;
      any := picked != {};
    }

    method ReleaseHeld(numbers: set<nat>) returns (any: bool)
      modifies this
      ensures rows == Settled(old(rows), numbers, false)
      ensures rows.Keys == old(rows).Keys
      ensures forall n :: n in rows ==> rows[n] == Row(n !in numbers && old(rows)[n].held, old(rows)[n].lease)
      ensures any <==> exists n :: n in numbers && n in old(rows) && old(rows)[n].held
    {
      ghost var was := rows;
      any := ReleaseWhere(HeldIn(rows, numbers));
      assert forall n :: n in HeldIn(was, numbers) <==> n in numbers && n in was && was[n].held;
    }

    method ReleaseLapsed(live: set<Tab>) returns (any: bool)
      modifies this
      ensures rows == Released(old(rows), LapsedIn(old(rows), live))
      ensures rows.Keys == old(rows).Keys
      ensures forall n :: n in rows ==>
        && rows[n].lease == old(rows)[n].lease
        && (rows[n].held <==> old(rows)[n].held && rows[n].lease.Some? && rows[n].lease.value in live)
      ensures any <==> LapsedIn(old(rows), live) != {}
    {
      any := ReleaseWhere(LapsedIn(rows, live));
    }

    method DropHeld(numbers: set<nat>)
      modifies this
      ensures rows == Settled(old(rows), numbers, true)
      ensures forall n :: n in rows <==> n in old(rows) && !(n in numbers && old(rows)[n].held)
      ensures forall n :: n in rows ==> rows[n] == old(rows)[n]
    {
      rows := rows - HeldIn(rows, numbers);
    }
  }
}

/** The in-memory index of senders beside the header table on disk: a batch
    lands on disk in a transaction and in the index in the continuation behind
    it, and the table is read anew in three steps. Any of these steps of any
    calls may interleave; continuations run in the order of their
    transactions. One account at a time: none touches another's rows. */
module SenderIndex {
  import opened Wrappers
  import Sequences

  type Id = string

  datatype Address = Address(name: Option<string>, email: string)

  /** The two fields of a header that the senders fold from. */
  datatype Fact = Fact(sender: Option<seq<Address>>, receivedAt: string)

  /** A stored row; one that fails its schema is left out of every read. */
  datatype Header = Header(fact: Fact, valid: bool, subject: string)

  datatype Put = Put(id: Id, row: Header)

  datatype Change = Change(remove: seq<Id>, put: seq<Put>)

  /** A batch by what it does to the headers. */
  datatype Batch = Batch(reset: bool, emails: Option<Change>) {
    predicate TouchesHeaders() {
      reset || emails.Some?
    }
  }

  type Table = map<Id, Header>
  type Facts = map<Id, Fact>

  /** A read of the table: the count it began under, the facts once seen. */
  datatype Reading = Reading(batches: nat, seen: Option<Facts>)

  datatype State = State(
    table: Table,
    facts: Option<Facts>,
    batches: nat,
    landing: seq<Batch>,
    readings: seq<Reading>)

  function Start(table: Table): State {
    State(table, None, 0, [], [])
  }

  // ---------------------------------------------------------------------
  // Rows and facts
  // ---------------------------------------------------------------------

  function FactsOf(table: Table): Facts {
    map id | id in table && table[id].valid :: table[id].fact
  }

  function Without<T>(rows: map<Id, T>, ids: seq<Id>): map<Id, T>
    decreases |ids|
  {
    if ids == [] then rows else Without(rows - {ids[0]}, ids[1..])
  }

  function With(rows: Table, puts: seq<Put>): Table
    decreases |puts|
  {
    if puts == [] then rows else With(rows[puts[0].id := puts[0].row], puts[1..])
  }

  function WithFacts(facts: Facts, puts: seq<Put>): Facts
    decreases |puts|
  {
    if puts == [] then facts else WithFacts(facts[puts[0].id := puts[0].row.fact], puts[1..])
  }

  /** What the transaction leaves on disk. */
  function Stored(table: Table, batch: Batch): Table {
    var kept := if batch.reset then map[] else table;
    if batch.emails.None? then kept else With(Without(kept, batch.emails.value.remove), batch.emails.value.put)
  }

  /** What the continuation leaves in memory. */
  function Folded(facts: Option<Facts>, batch: Batch): Option<Facts> {
    if facts.None? || batch.reset then None
    else if batch.emails.None? then facts
    else Some(WithFacts(Without(facts.value, batch.emails.value.remove), batch.emails.value.put))
  }

  // ---------------------------------------------------------------------
  // The steps
  // ---------------------------------------------------------------------

  datatype Event =
    | Transact(batch: Batch)
    | Land
    | ReadBegins
    | ReadRows(read: nat)
    | ReadEnds(read: nat)
    | Destroy

  predicate Enabled(s: State, e: Event) {
    match e
    case Land => s.landing != []
    case ReadRows(read) => read < |s.readings| && s.readings[read].seen.None?
    case ReadEnds(read) => read < |s.readings| && s.readings[read].seen.Some?
    case _ => true
  }

  function Step(s: State, e: Event): State
    requires Enabled(s, e)
  {
    match e
    case Transact(batch) => s.(table := Stored(s.table, batch), landing := s.landing + [batch])
    case Land =>
      var batch := s.landing[0];
      var rest := s.(landing := s.landing[1..]);
      if batch.TouchesHeaders() then rest.(batches := s.batches + 1, facts := Folded(s.facts, batch)) else rest
    case ReadBegins => s.(readings := s.readings + [Reading(s.batches, None)])
    case ReadRows(read) => s.(readings := s.readings[read := s.readings[read].(seen := Some(FactsOf(s.table)))])
    case ReadEnds(read) =>
      var done := s.(readings := s.readings[..read] + s.readings[read + 1..]);
      if s.readings[read].batches == s.batches then done.(facts := s.readings[read].seen) else done
    case Destroy => s.(table := map[], facts := None)
  }

  // ---------------------------------------------------------------------
  // One id at a time
  // ---------------------------------------------------------------------

  function At<T>(rows: map<Id, T>, id: Id): Option<T> {
    if id in rows then Some(rows[id]) else None
  }

  /** The last row a change puts under an id. */
  function LastPut(puts: seq<Put>, id: Id): Option<Header>
    decreases |puts|
  {
    if puts == [] then None
    else
      var later := LastPut(puts[1..], id);
      if later.Some? then later else if puts[0].id == id then Some(puts[0].row) else None
  }

  /** What a batch makes of the fact under one id. */
  function Effect(batch: Batch, id: Id, fact: Option<Fact>): Option<Fact> {
    var kept := if batch.reset then None else fact;
    if batch.emails.None? then kept
    else
      var put := LastPut(batch.emails.value.put, id);
      if put.Some? then Some(put.value.fact) else if id in batch.emails.value.remove then None else kept
  }

  function Effects(batches: seq<Batch>, id: Id, fact: Option<Fact>): Option<Fact>
    decreases |batches|
  {
    if batches == [] then fact else Effects(batches[1..], id, Effect(batches[0], id, fact))
  }

  /** Every row a batch leaves under an id passes its schema. */
  ghost predicate Passes(batch: Batch) {
    batch.emails.Some? ==>
      forall id :: LastPut(batch.emails.value.put, id).Some? ==> LastPut(batch.emails.value.put, id).value.valid
  }

  lemma {:induction false} WithoutAt<T>(rows: map<Id, T>, ids: seq<Id>, id: Id)
    ensures At(Without(rows, ids), id) == if id in ids then None else At(rows, id)
    decreases |ids|
  {
    if ids != [] {
      WithoutAt(rows - {ids[0]}, ids[1..], id);
    }
  }

  lemma {:induction false} WithAt(rows: Table, puts: seq<Put>, id: Id)
    ensures At(With(rows, puts), id) == if LastPut(puts, id).Some? then LastPut(puts, id) else At(rows, id)
    decreases |puts|
  {
    if puts != [] {
      WithAt(rows[puts[0].id := puts[0].row], puts[1..], id);
    }
  }

  lemma {:induction false} WithFactsAt(facts: Facts, puts: seq<Put>, id: Id)
    ensures At(WithFacts(facts, puts), id)
      == if LastPut(puts, id).Some? then Some(LastPut(puts, id).value.fact) else At(facts, id)
    decreases |puts|
  {
    if puts != [] {
      WithFactsAt(facts[puts[0].id := puts[0].row.fact], puts[1..], id);
    }
  }

  lemma StoredAt(table: Table, batch: Batch, id: Id)
    requires Passes(batch)
    ensures At(FactsOf(Stored(table, batch)), id) == Effect(batch, id, At(FactsOf(table), id))
  {
    if batch.emails.Some? {
      var kept := if batch.reset then map[] else table;
      WithoutAt(kept, batch.emails.value.remove, id);
      WithAt(Without(kept, batch.emails.value.remove), batch.emails.value.put, id);
    }
  }

  lemma FoldedAt(facts: Facts, batch: Batch, id: Id)
    requires !batch.reset
    ensures Folded(Some(facts), batch).Some?
    ensures At(Folded(Some(facts), batch).value, id) == Effect(batch, id, At(facts, id))
  {
    if batch.emails.Some? {
      WithoutAt(facts, batch.emails.value.remove, id);
      WithFactsAt(Without(facts, batch.emails.value.remove), batch.emails.value.put, id);
    }
  }

  lemma {:induction false} EffectsThen(batches: seq<Batch>, batch: Batch, id: Id, fact: Option<Fact>)
    ensures Effects(batches + [batch], id, fact) == Effect(batch, id, Effects(batches, id, fact))
    decreases |batches|
  {
    if batches == [] {
      Sequences.Empty([batch]);
    } else {
      Sequences.Tail(batches, [batch]);
      EffectsThen(batches[1..], batch, id, Effect(batches[0], id, fact));
    }
  }

  /** Batches either leave an id as it is or leave it as they will, whatever
      was there. */
  lemma {:induction false} EffectsSettle(batches: seq<Batch>, id: Id, a: Option<Fact>, b: Option<Fact>)
    ensures || (Effects(batches, id, a) == a && Effects(batches, id, b) == b)
            || Effects(batches, id, a) == Effects(batches, id, b)
    decreases |batches|
  {
    if batches != [] {
      EffectsSettle(batches[1..], id, Effect(batches[0], id, a), Effect(batches[0], id, b));
    }
  }

  lemma SameFacts(a: Facts, b: Facts)
    requires forall id :: At(a, id) == At(b, id)
    ensures a == b
  {
    assert forall id :: id in a <==> At(a, id).Some?;
    assert forall id :: id in b <==> At(b, id).Some?;
    assert forall id :: id in a ==> At(a, id) == Some(a[id]);
    assert forall id :: id in b ==> At(b, id) == Some(b[id]);
  }

  /** One batch keeps the index equal to the table exactly when no row it
      leaves fails its schema: the index takes a put row as it comes, the
      table's reader checks it. */
  lemma FoldAgreesExactly(table: Table, batch: Batch)
    requires !batch.reset
    ensures Folded(Some(FactsOf(table)), batch) == Some(FactsOf(Stored(table, batch))) <==> Passes(batch)
  {
    var facts := FactsOf(table);
    if Passes(batch) {
      forall id ensures At(Folded(Some(facts), batch).value, id) == At(FactsOf(Stored(table, batch)), id) {
        StoredAt(table, batch, id);
        FoldedAt(facts, batch, id);
      }
      SameFacts(Folded(Some(facts), batch).value, FactsOf(Stored(table, batch)));
    } else {
      var put := batch.emails.value.put;
      var id :| LastPut(put, id).Some? && !LastPut(put, id).value.valid;
      FoldedAt(facts, batch, id);
      WithAt(Without(table, batch.emails.value.remove), put, id);
    }
  }

  /** Such a batch: one row that fails its schema, held and never read. */
  lemma InvalidRowHeld(id: Id, row: Header)
    requires !row.valid
    ensures var batch := Batch(false, Some(Change([], [Put(id, row)])));
      Folded(Some(FactsOf(map[])), batch) == Some(map[id := row.fact]) && FactsOf(Stored(map[], batch)) == map[]
  {
    var puts := [Put(id, row)];
    assert puts[1..] == [];
    assert With(map[], puts) == map[id := row];
    assert WithFacts(map[], puts) == map[id := row.fact];
    assert FactsOf(map[]) == map[] && FactsOf(map[id := row]) == map[];
  }

  // ---------------------------------------------------------------------
  // What every step keeps
  // ---------------------------------------------------------------------

  /** Facts that become the table's once the batches behind land on them. */
  ghost predicate Agree(s: State, facts: Facts) {
    forall id :: Effects(s.landing, id, At(facts, id)) == At(FactsOf(s.table), id)
  }

  predicate Current(s: State, read: Reading) {
    read.seen.Some? && read.batches == s.batches
  }

  ghost predicate Inv(s: State) {
    && Agree(s, FactsOf(s.table))
    && (s.facts.Some? ==> Agree(s, s.facts.value))
    && (forall read :: read in s.readings ==> read.batches <= s.batches)
    && (forall read :: read in s.readings && Current(s, read) ==> Agree(s, read.seen.value))
  }

  /** A destroy lands with no batch between its two steps, and no read in
      flight that has seen a row. */
  ghost predicate Quiet(s: State) {
    s.landing == [] && forall read :: read in s.readings && Current(s, read) ==> read.seen.value == map[]
  }

  ghost predicate Allowed(s: State, e: Event) {
    && Enabled(s, e)
    && (e.Transact? ==> Passes(e.batch))
    && (e.Destroy? ==> Quiet(s))
  }

  lemma TransactAgrees(s: State, batch: Batch, facts: Facts)
    requires Agree(s, facts) && Passes(batch)
    ensures Agree(Step(s, Transact(batch)), facts)
  {
    forall id
      ensures Effects(s.landing + [batch], id, At(facts, id)) == At(FactsOf(Stored(s.table, batch)), id)
    {
      EffectsThen(s.landing, batch, id, At(facts, id));
      StoredAt(s.table, batch, id);
    }
  }

  /** The lemma behind the index: batches already in a later snapshot may land
      on it again, last write wins. */
  lemma RefoldAgrees(s: State, batch: Batch)
    requires Agree(s, FactsOf(s.table)) && Passes(batch)
    ensures Agree(Step(s, Transact(batch)), FactsOf(Stored(s.table, batch)))
  {
    var after := FactsOf(Stored(s.table, batch));
    forall id
      ensures Effects(s.landing + [batch], id, At(after, id)) == At(after, id)
    {
      var was := At(FactsOf(s.table), id);
      StoredAt(s.table, batch, id);
      EffectsThen(s.landing, batch, id, At(after, id));
      assert Effects(s.landing, id, was) == was;
    }
  }

  lemma LandAgrees(s: State, facts: Facts)
    requires s.landing != [] && !s.landing[0].reset && Agree(s, facts)
    ensures Agree(Step(s, Land), Folded(Some(facts), s.landing[0]).value)
  {
    var batch := s.landing[0];
    forall id
      ensures Effects(s.landing[1..], id, At(Folded(Some(facts), batch).value, id)) == At(FactsOf(s.table), id)
    {
      FoldedAt(facts, batch, id);
      assert Effects(s.landing, id, At(facts, id)) == Effects(s.landing[1..], id, Effect(batch, id, At(facts, id)));
    }
  }

  /** What is left to land leaves the table's own facts alone. */
  lemma LandRefolds(s: State)
    requires s.landing != [] && Agree(s, FactsOf(s.table))
    ensures Agree(Step(s, Land), FactsOf(s.table))
  {
    forall id
      ensures Effects(s.landing[1..], id, At(FactsOf(s.table), id)) == At(FactsOf(s.table), id)
    {
      var fact := At(FactsOf(s.table), id);
      assert Effects(s.landing, id, fact) == Effects(s.landing[1..], id, Effect(s.landing[0], id, fact));
      EffectsSettle(s.landing[1..], id, fact, Effect(s.landing[0], id, fact));
    }
  }

  lemma LandKeeps(s: State)
    requires Inv(s) && s.landing != []
    ensures Inv(Step(s, Land))
  {
    var batch := s.landing[0];
    var t := Step(s, Land);
    LandRefolds(s);
    if s.facts.Some? && !batch.reset {
      LandAgrees(s, s.facts.value);
    }
    forall read | read in s.readings && Current(t, read)
      ensures Agree(t, read.seen.value)
    {
      assert !batch.TouchesHeaders();
      assert Agree(s, read.seen.value);
      LandAgrees(s, read.seen.value);
    }
  }

  lemma TransactKeeps(s: State, batch: Batch)
    requires Inv(s) && Passes(batch)
    ensures Inv(Step(s, Transact(batch)))
  {
    var t := Step(s, Transact(batch));
    RefoldAgrees(s, batch);
    if s.facts.Some? {
      TransactAgrees(s, batch, s.facts.value);
    }
    forall read | read in s.readings && Current(t, read)
      ensures Agree(t, read.seen.value)
    {
      TransactAgrees(s, batch, read.seen.value);
    }
  }

  lemma ReadKeeps(s: State, e: Event)
    requires Inv(s) && Enabled(s, e) && (e.ReadBegins? || e.ReadRows? || e.ReadEnds?)
    ensures Inv(Step(s, e))
  {
    var t := Step(s, e);
    assert forall facts :: Agree(s, facts) ==> Agree(t, facts);
    forall read | read in t.readings
      ensures read.batches <= t.batches && (Current(t, read) ==> Agree(t, read.seen.value))
    {
      if read in s.readings {
        assert Current(t, read) ==> Current(s, read);
      }
    }
  }

  lemma DestroyKeeps(s: State)
    requires Inv(s) && Quiet(s)
    ensures Inv(Step(s, Destroy))
  {
    var t := Step(s, Destroy);
    forall read | read in t.readings && Current(t, read)
      ensures Agree(t, read.seen.value)
    {
      assert Current(s, read);
    }
  }

  lemma StepKeeps(s: State, e: Event)
    requires Inv(s) && Allowed(s, e)
    ensures Inv(Step(s, e))
  {
    match e {
      case Transact(batch) => TransactKeeps(s, batch);
      case Land => LandKeeps(s);
      case Destroy => DestroyKeeps(s);
      case _ => ReadKeeps(s, e);
    }
  }

  // ---------------------------------------------------------------------
  // Every run
  // ---------------------------------------------------------------------

  ghost predicate Runs(s: State, events: seq<Event>)
    decreases |events|
  {
    events == [] || (Allowed(s, events[0]) && Runs(Step(s, events[0]), events[1..]))
  }

  ghost function After(s: State, events: seq<Event>): State
    requires Runs(s, events)
    decreases |events|
  {
    if events == [] then s else After(Step(s, events[0]), events[1..])
  }

  lemma {:induction false} EveryRunFrom(s: State, events: seq<Event>)
    requires Inv(s) && Runs(s, events)
    ensures Inv(After(s, events))
    decreases |events|
  {
    hide Inv;
    if events != [] {
      StepKeeps(s, events[0]);
      EveryRunFrom(Step(s, events[0]), events[1..]);
    }
  }

  lemma AgreedFacts(s: State, facts: Facts)
    requires Agree(s, facts) && s.landing == []
    ensures facts == FactsOf(s.table)
  {
    forall id ensures At(facts, id) == At(FactsOf(s.table), id) {
      assert Effects(s.landing, id, At(facts, id)) == At(facts, id);
    }
    SameFacts(facts, FactsOf(s.table));
  }

  /** The index: over any table and any run of batches, reads and their steps,
      whenever no batch sits between its transaction and its continuation, the
      held facts are absent or the facts of every header on disk. */
  lemma IndexAgrees(table: Table, events: seq<Event>)
    requires Runs(Start(table), events)
    ensures var s := After(Start(table), events);
      s.landing == [] && s.facts.Some? ==> s.facts.value == FactsOf(s.table)
  {
    EveryRunFrom(Start(table), events);
    var s := After(Start(table), events);
    if s.landing == [] && s.facts.Some? {
      AgreedFacts(s, s.facts.value);
    }
  }

  /** A destroy moves no count, so a read it overtakes is kept: the held facts
      then agree with the emptied table exactly when a batch had overtaken the
      read as well or it had seen no row. */
  lemma DestroyDuringReadExactly(s: State, read: nat)
    requires Inv(s) && s.landing == [] && read < |s.readings| && s.readings[read].seen.Some?
    ensures var t := Step(Step(s, Destroy), ReadEnds(read));
      (t.facts.Some? ==> t.facts.value == FactsOf(t.table))
      <==> s.readings[read].batches != s.batches || s.readings[read].seen.value == map[]
  {
    assert FactsOf(map[]) == map[];
  }

  /** Such a run: a header read, the database destroyed, the header kept. */
  lemma DestroyedHeaderKept(id: Id, row: Header)
    requires row.valid
    ensures var begun := Step(Start(map[id := row]), ReadBegins);
      var seen := Step(begun, ReadRows(0));
      var t := Step(Step(seen, Destroy), ReadEnds(0));
      t.table == map[] && t.facts == Some(map[id := row.fact])
  {
    assert FactsOf(map[id := row]) == map[id := row.fact];
  }

  /** The table read anew with nothing between the steps of the read. */
  function Reread(s: State): State {
    var read := |s.readings|;
    Step(Step(Step(s, ReadBegins), ReadRows(read)), ReadEnds(read))
  }

  /** A read that nothing overtakes is held: the fact of every row on disk that
      passes its schema, and no other. */
  lemma RereadHolds(s: State)
    ensures var t := Reread(s);
      && t.facts.Some? && t == s.(facts := t.facts)
      && forall id ::
        At(t.facts.value, id) == if id in s.table && s.table[id].valid then Some(s.table[id].fact) else None
  {
    var read := |s.readings|;
    var readings := s.readings + [Reading(s.batches, Some(FactsOf(s.table)))];
    assert (s.readings + [Reading(s.batches, None)])[read := Reading(s.batches, Some(FactsOf(s.table)))] == readings;
    assert readings[..read] + readings[read + 1..] == s.readings;
  }

  /** A read the headers' batches overtook is not held, and one they did not
      overtake is. */
  lemma ReadHeldExactly(s: State, read: nat)
    requires Enabled(s, ReadEnds(read))
    ensures var t := Step(s, ReadEnds(read));
      && t.facts == (if s.readings[read].batches == s.batches then s.readings[read].seen else s.facts)
      && t.table == s.table && t.batches == s.batches && t.landing == s.landing
  {
  }

  /** Every continuation still to come, in order. */
  function LandAll(s: State): State
    decreases |s.landing|
  {
    if s.landing == [] then s else LandAll(Step(s, Land))
  }

  lemma RereadDestroyed(s: State)
    ensures var t := Reread(Step(s, Destroy));
      t.table == map[] && t.facts == Some(map[]) && t.landing == s.landing
  {
    assert FactsOf(map[]) == map[];
  }

  lemma {:induction false} LandAllNone(s: State)
    requires s.facts.None?
    ensures LandAll(s).facts.None?
    decreases |s.landing|
  {
    if s.landing != [] {
      LandAllNone(Step(s, Land));
    }
  }

  predicate Resets(batches: seq<Batch>) {
    exists i :: 0 <= i < |batches| && batches[i].reset
  }

  /** Over an empty table the batches leave no row. */
  ghost predicate LeaveNothing(batches: seq<Batch>) {
    forall id :: Effects(batches, id, None) == None
  }

  lemma LandFirst(s: State)
    requires s.facts.Some? && s.landing != [] && !s.landing[0].reset
    ensures Step(s, Land).facts == Folded(s.facts, s.landing[0])
    ensures Step(s, Land).facts.Some? && Step(s, Land).table == s.table && Step(s, Land).landing == s.landing[1..]
    ensures Resets(s.landing) <==> Resets(s.landing[1..])
  {
    if Resets(s.landing) {
      var i :| 0 <= i < |s.landing| && s.landing[i].reset;
      assert s.landing[1..][i - 1].reset;
    }
  }

  lemma {:induction false} LandAllFacts(s: State, id: Id)
    requires s.facts.Some?
    ensures LandAll(s).table == s.table && (LandAll(s).facts.None? <==> Resets(s.landing))
    ensures !Resets(s.landing) ==> At(LandAll(s).facts.value, id) == Effects(s.landing, id, At(s.facts.value, id))
    decreases |s.landing|
  {
    if s.landing == [] {
    } else if s.landing[0].reset {
      LandAllTable(Step(s, Land));
      LandAllNone(Step(s, Land));
    } else {
      LandFirst(s);
      FoldedAt(s.facts.value, s.landing[0], id);
      LandAllFacts(Step(s, Land), id);
    }
  }

  lemma {:induction false} LandAllTable(s: State)
    ensures LandAll(s).table == s.table
    decreases |s.landing|
  {
    if s.landing != [] {
      LandAllTable(Step(s, Land));
    }
  }

  /** A destroy between a batch's transaction and its continuation: once the
      table is read anew and the continuations ran, the held facts agree with
      the emptied table exactly when one of the batches drops them or none
      leaves a row. */
  lemma DestroyWhileLandingExactly(s: State)
    ensures var t := LandAll(Reread(Step(s, Destroy)));
      (t.facts.Some? ==> t.facts.value == FactsOf(t.table))
      <==> Resets(s.landing) || LeaveNothing(s.landing)
  {
    var read := Reread(Step(s, Destroy));
    var t := LandAll(read);
    RereadDestroyed(s);
    hide Step, Reread, LandAll;
    forall id
      ensures t.table == map[] && (t.facts.None? <==> Resets(s.landing))
      ensures !Resets(s.landing) ==> At(t.facts.value, id) == Effects(s.landing, id, None)
    {
      LandAllFacts(read, id);
    }
    LandAllFacts(read, []);
    assert FactsOf(map[]) == map[];
    if t.facts.Some? {
      if LeaveNothing(s.landing) {
        SameFacts(t.facts.value, map[]);
      } else {
        var id :| Effects(s.landing, id, None) != None;
        assert At(t.facts.value, id).Some? && At(FactsOf(t.table), id).None?;
      }
    }
  }

  /** Such a run: a header written, the database destroyed and read ahead of
      the continuation, the header held. */
  lemma DestroyedHeaderLands(id: Id, row: Header)
    ensures var written := Step(Start(map[]), Transact(Batch(false, Some(Change([], [Put(id, row)])))));
      var t := Step(Reread(Step(written, Destroy)), Land);
      t.landing == [] && t.table == map[] && t.facts == Some(map[id := row.fact])
  {
    var batch := Batch(false, Some(Change([], [Put(id, row)])));
    var written := Step(Start(map[]), Transact(batch));
    assert written.landing == [batch] && [batch][1..] == [];
    RereadDestroyed(written);
    var puts := [Put(id, row)];
    assert puts[1..] == [];
    assert WithFacts(map[], puts) == map[id := row.fact];
  }

  // ---------------------------------------------------------------------
  // The source's object
  // ---------------------------------------------------------------------

  method Remove<T>(rows: map<Id, T>, ids: seq<Id>) returns (left: map<Id, T>)
    ensures left == Without(rows, ids)
    ensures forall id :: At(left, id) == if id in ids then None else At(rows, id)
  {
    left := rows;
    for i := 0 to |ids|
      invariant Without(left, ids[i..]) == Without(rows, ids)
    {
      Sequences.Front(ids, i);
      left := left - {ids[i]};
    }
    forall id ensures At(left, id) == if id in ids then None else At(rows, id) {
      WithoutAt(rows, ids, id);
    }
  }

  method PutRows(table: Table, puts: seq<Put>) returns (rows: Table)
    ensures rows == With(table, puts)
    ensures forall id :: At(rows, id) == if LastPut(puts, id).Some? then LastPut(puts, id) else At(table, id)
  {
    rows := table;
    for i := 0 to |puts|
      invariant With(rows, puts[i..]) == With(table, puts)
    {
      Sequences.Front(puts, i);
      rows := rows[puts[i].id := puts[i].row];
    }
    forall id ensures At(rows, id) == if LastPut(puts, id).Some? then LastPut(puts, id) else At(table, id) {
      WithAt(table, puts, id);
    }
  }

  method PutFacts(facts: Facts, puts: seq<Put>) returns (held: Facts)
    ensures held == WithFacts(facts, puts)
    ensures forall id ::
      At(held, id) == if LastPut(puts, id).Some? then Some(LastPut(puts, id).value.fact) else At(facts, id)
  {
    held := facts;
    for i := 0 to |puts|
      invariant WithFacts(held, puts[i..]) == WithFacts(facts, puts)
    {
      Sequences.Front(puts, i);
      held := held[puts[i].id := puts[i].row.fact];
    }
    forall id
      ensures At(held, id) == if LastPut(puts, id).Some? then Some(LastPut(puts, id).value.fact) else At(facts, id)
    {
      WithFactsAt(facts, puts, id);
    }
  }

  /** `tables` stands for the database; the batches between their two steps
      and the reads in flight are what the engine's queue holds. */
  class DexieMailStore {
    var tables: map<string, Table>
    var senderFacts: map<string, Facts>
    var headerBatches: map<string, nat>
    ghost var landing: map<string, seq<Batch>>
    ghost var readings: map<string, seq<Reading>>

    ghost function Of(account: string): State
      reads this
    {
      State(
        TableOf(account),
        At(senderFacts, account),
        if account in headerBatches then headerBatches[account] else 0,
        if account in landing then landing[account] else [],
        if account in readings then readings[account] else [])
    }

    function TableOf(account: string): Table
      reads this`tables
    {
      if account in tables then tables[account] else map[]
    }

    constructor ()
      ensures forall account :: Of(account) == Start(map[])
    {
      tables, senderFacts, headerBatches := map[], map[], map[];
      landing, readings := map[], map[];
    }

    /** The batch's transaction: removed ids leave, put rows take their place. */
    method Transact(account: string, batch: Batch)
      modifies this
      ensures Of(account) == Step(old(Of(account)), Event.Transact(batch))
      ensures forall other :: other != account ==> Of(other) == old(Of(other))
    {
      var table := if batch.reset then map[] else TableOf(account);
      if batch.emails.Some? {
        table := Remove(table, batch.emails.value.remove);
        table := PutRows(table, batch.emails.value.put);
      }
      tables := tables[account := table];
      landing := landing[account := old(Of(account)).landing + [batch]];
    }

    /** What the commit does once its transaction is through. */
    method Land(account: string, batch: Batch)
      requires Of(account).landing != [] && Of(account).landing[0] == batch
      modifies this
      ensures Of(account) == Step(old(Of(account)), Event.Land)
      ensures forall other :: other != account ==> Of(other) == old(Of(other))
    {
      landing := landing[account := landing[account][1..]];
      if batch.emails.Some? || batch.reset {
        headerBatches :=
          headerBatches[account := (if account in headerBatches then headerBatches[account] else 0) + 1];
        ApplySenderFacts(account, batch);
      }
    }

    method ApplySenderFacts(account: string, batch: Batch)
      modifies this`senderFacts
      ensures At(senderFacts, account) == Folded(old(At(senderFacts, account)), batch)
      ensures forall other :: other != account ==> At(senderFacts, other) == old(At(senderFacts, other))
    {
      if account !in senderFacts {
        return;
      }
      if batch.reset {
        senderFacts := senderFacts - {account};
        return;
      }
      if batch.emails.None? {
        return;
      }
      var held := Remove(senderFacts[account], batch.emails.value.remove);
      held := PutFacts(held, batch.emails.value.put);
      senderFacts := senderFacts[account := held];
    }

    /** A call that finds no held facts begins a read under the count of now. */
    method ReadBegins(account: string) returns (batches: nat)
      modifies this`readings
      ensures batches == old(Of(account)).batches
      ensures Of(account) == Step(old(Of(account)), Event.ReadBegins)
      ensures forall other :: other != account ==> Of(other) == old(Of(other))
    {
      batches := if account in headerBatches then headerBatches[account] else 0;
      readings := readings[account := Of(account).readings + [Reading(batches, None)]];
    }

    method ReadRows(account: string, ghost read: nat) returns (facts: Facts)
      requires Enabled(Of(account), Event.ReadRows(read))
      modifies this`readings
      ensures facts == FactsOf(old(Of(account)).table)
      ensures Of(account) == Step(old(Of(account)), Event.ReadRows(read))
      ensures forall other :: other != account ==> Of(other) == old(Of(other))
    {
      facts := FactsOf(TableOf(account));
      readings := readings[account := readings[account][read := readings[account][read].(seen := Some(facts))]];
    }

    /** The read is kept only when no batch overtook it. */
    method ReadEnds(account: string, ghost read: nat, batches: nat, facts: Facts)
      requires Enabled(Of(account), Event.ReadEnds(read)) && Of(account).readings[read] == Reading(batches, Some(facts))
      modifies this
      ensures Of(account) == Step(old(Of(account)), Event.ReadEnds(read))
      ensures forall other :: other != account ==> Of(other) == old(Of(other))
    {
      readings := readings[account := readings[account][..read] + readings[account][read + 1..]];
      if (if account in headerBatches then headerBatches[account] else 0) == batches {
        senderFacts := senderFacts[account := facts];
      }
    }

    method Destroy()
      modifies this
      ensures forall account :: Of(account) == Step(old(Of(account)), Event.Destroy)
    {
      senderFacts := map[];
      tables := map[];
    }
  }
}

/** Patches of an email's keywords and mailboxes: paths by the escapes of
    RFC 6901, what a patch does to a state, and the patch that takes it back. */
module Patch {
  import opened Wrappers
  import Sequences

  /** The two sets of an email a patch names members of. */
  datatype Members = Keywords | MailboxIds

  datatype Target = Target(members: Members, key: string)

  // ---------------------------------------------------------------------
  // Paths
  // ---------------------------------------------------------------------

  /** Every `from` of a text written as `to`. */
  function ReplaceChar(text: string, from: char, to: string): string
    decreases |text|
  {
    if text == [] then [] else (if text[0] == from then to else [text[0]]) + ReplaceChar(text[1..], from, to)
  }

  /** Every `a` with `b` behind it written as `to`, from the left. */
  function ReplacePair(text: string, a: char, b: char, to: string): string
    decreases |text|
  {
    if |text| < 2 then text
    else if text[0] == a && text[1] == b then to + ReplacePair(text[2..], a, b, to)
    else [text[0]] + ReplacePair(text[1..], a, b, to)
  }

  function Prefix(members: Members): string {
    match members
    case Keywords => "keywords/"
    case MailboxIds => "mailboxIds/"
  }

  function Escaped(key: string): string {
    ReplaceChar(ReplaceChar(key, '~', "~0"), '/', "~1")
  }

  function Unescaped(text: string): string {
    ReplacePair(ReplacePair(text, '~', '1', "/"), '~', '0', "~")
  }

  function PathOf(members: Members, key: string): string {
    Prefix(members) + Escaped(key)
  }

  predicate StartsWith(path: string, members: Members) {
    Prefix(members) <= path && |path| > |Prefix(members)|
  }

  /** The member a path names; none, an error of the source's, for a path of
      another kind. */
  function TargetOf(path: string): Option<Target> {
    if StartsWith(path, Keywords) then Some(Target(Keywords, Unescaped(path[|Prefix(Keywords)|..])))
    else if StartsWith(path, MailboxIds) then Some(Target(MailboxIds, Unescaped(path[|Prefix(MailboxIds)|..])))
    else None
  }

  lemma Behind(c: char, rest: string)
    ensures ([c] + rest)[0] == c && ([c] + rest)[1..] == rest && |[c] + rest| == 1 + |rest|
  {
  }

  lemma CharSkips(c: char, rest: string, from: char, to: string)
    requires c != from
    ensures ReplaceChar([c] + rest, from, to) == [c] + ReplaceChar(rest, from, to)
  {
    Behind(c, rest);
  }

  /** A character that opens no pair stays. */
  lemma PairSkips(c: char, rest: string, a: char, b: char, to: string)
    requires c != a
    ensures ReplacePair([c] + rest, a, b, to) == [c] + ReplacePair(rest, a, b, to)
  {
    Behind(c, rest);
    if rest == [] {
      assert ReplacePair(rest, a, b, to) == [];
    }
  }

  lemma PairMisses(c: char, d: char, rest: string, a: char, b: char, to: string)
    requires d != a && d != b
    ensures ReplacePair([c] + ([d] + rest), a, b, to) == [c] + ([d] + ReplacePair(rest, a, b, to))
  {
    Behind(c, [d] + rest);
    Behind(d, rest);
    PairSkips(d, rest, a, b, to);
  }

  lemma PairHits(rest: string, a: char, b: char, to: string)
    ensures ReplacePair([a] + ([b] + rest), a, b, to) == to + ReplacePair(rest, a, b, to)
  {
    Behind(a, [b] + rest);
    Behind(b, rest);
    assert ([a] + ([b] + rest))[2..] == rest;
  }

  lemma Two(c: char, d: char, rest: string)
    ensures [c, d] + rest == [c] + ([d] + rest)
  {
  }

  /** The slashes first, then the tildes: the order that loses nothing. */
  lemma {:induction false} SlashesBack(key: string)
    ensures ReplacePair(Escaped(key), '~', '1', "/") == ReplaceChar(key, '~', "~0")
    decreases |key|
  {
    if key != [] {
      var rest := key[1..];
      var half := ReplaceChar(rest, '~', "~0");
      var done := Escaped(rest);
      SlashesBack(rest);
      if key[0] == '~' {
        Two('~', '0', half);
        CharSkips('~', ['0'] + half, '/', "~1");
        CharSkips('0', half, '/', "~1");
        PairMisses('~', '0', done, '~', '1', "/");
      } else if key[0] == '/' {
        Behind('/', half);
        Two('~', '1', done);
        PairHits(done, '~', '1', "/");
      } else {
        Behind(key[0], half);
        PairSkips(key[0], done, '~', '1', "/");
      }
    }
  }

  lemma {:induction false} TildesBack(key: string)
    ensures ReplacePair(ReplaceChar(key, '~', "~0"), '~', '0', "~") == key
    decreases |key|
  {
    if key != [] {
      var rest := key[1..];
      TildesBack(rest);
      Sequences.Cons(key);
      if key[0] == '~' {
        Two('~', '0', ReplaceChar(rest, '~', "~0"));
        PairHits(ReplaceChar(rest, '~', "~0"), '~', '0', "~");
      } else {
        PairSkips(key[0], ReplaceChar(rest, '~', "~0"), '~', '0', "~");
      }
    }
  }

  lemma EscapedLength(key: string)
    ensures |Escaped(key)| >= |key|
    decreases |key|
  {
    ReplacedLength(key, '~', "~0");
    ReplacedLength(ReplaceChar(key, '~', "~0"), '/', "~1");
  }

  lemma {:induction false} ReplacedLength(text: string, from: char, to: string)
    requires to != []
    ensures |ReplaceChar(text, from, to)| >= |text|
    decreases |text|
  {
    if text != [] {
      ReplacedLength(text[1..], from, to);
    }
  }

  /** A path names the member it was written for, exactly when its key is not
      empty. */
  lemma PathRoundTripExactly(members: Members, key: string)
    ensures TargetOf(PathOf(members, key)) == Some(Target(members, key)) <==> key != ""
  {
    EscapedLength(key);
    Sequences.Parts(Prefix(members), Escaped(key));
    SlashesBack(key);
    TildesBack(key);
    assert PathOf(members, key)[0] == Prefix(members)[0];
    assert Prefix(members) <= PathOf(members, key);
    if key == "" {
      Sequences.Empty(Prefix(members));
      assert PathOf(members, key) == Prefix(members);
      assert Prefix(Keywords)[0] == 'k' && Prefix(MailboxIds)[0] == 'm';
    }
  }

  /** A path as it is written: the set's name, a slash and the key, whose
      tildes and slashes are escaped by section 3 of RFC 6901. */
  lemma PathWritten(c: char, rest: string)
    ensures PathOf(Keywords, rest) == "keywords/" + Escaped(rest)
    ensures PathOf(MailboxIds, rest) == "mailboxIds/" + Escaped(rest)
    ensures Escaped("") == ""
    ensures Escaped([c] + rest) == (if c == '~' then "~0" else if c == '/' then "~1" else [c]) + Escaped(rest)
  {
    Behind(c, rest);
    var half := ReplaceChar(rest, '~', "~0");
    if c == '~' {
      Two('~', '0', half);
      Two('~', '0', Escaped(rest));
      CharSkips('~', ['0'] + half, '/', "~1");
      CharSkips('0', half, '/', "~1");
    } else {
      Behind(c, half);
    }
  }

  // ---------------------------------------------------------------------
  // What a patch does
  // ---------------------------------------------------------------------

  datatype State = State(keywords: set<string>, mailboxIds: set<string>)

  /** A path with true, or with null. */
  datatype Entry = Entry(path: string, value: bool)

  type Patch = seq<Entry>

  predicate Named(entry: Entry) {
    TargetOf(entry.path).Some?
  }

  predicate Names(patch: Patch)
    decreases |patch|
  {
    patch == [] || (Named(patch[0]) && Names(patch[1..]))
  }

  predicate Has(state: State, target: Target) {
    match target.members
    case Keywords => target.key in state.keywords
    case MailboxIds => target.key in state.mailboxIds
  }

  function With(members: set<string>, key: string, value: bool): set<string> {
    if value then members + {key} else members - {key}
  }

  function Set(state: State, target: Target, value: bool): State {
    match target.members
    case Keywords => state.(keywords := With(state.keywords, target.key, value))
    case MailboxIds => state.(mailboxIds := With(state.mailboxIds, target.key, value))
  }

  function Patched(state: State, patch: Patch): State
    requires Names(patch)
    decreases |patch|
  {
    if patch == [] then state
    else Patched(Set(state, TargetOf(patch[0].path).value, patch[0].value), patch[1..])
  }

  /** The patch that takes it back: each path as the state held it when its
      turn came. */
  function Inverse(state: State, patch: Patch): (inverse: Patch)
    requires Names(patch)
    ensures |inverse| == |patch| && Names(inverse)
    decreases |patch|
  {
    if patch == [] then []
    else
      var target := TargetOf(patch[0].path).value;
      var rest := Inverse(Set(state, target, patch[0].value), patch[1..]);
      Sequences.Behind(Entry(patch[0].path, Has(state, target)), rest);
      [Entry(patch[0].path, Has(state, target))] + rest
  }

  /** The patch laid over the state in the order of its entries, the inverse
      gathered on the way. */
  method Lay(state: State, patch: Patch) returns (left: State, inverse: Patch)
    requires Names(patch)
    ensures left == Patched(state, patch) && inverse == Inverse(state, patch)
  {
    left, inverse := state, [];
    Sequences.From0(patch);
    Sequences.Empty(Inverse(state, patch));
    for i := 0 to |patch|
      invariant Names(patch[i..])
      invariant Patched(left, patch[i..]) == Patched(state, patch)
      invariant inverse + Inverse(left, patch[i..]) == Inverse(state, patch)
    {
      Sequences.Front(patch, i);
      var target := TargetOf(patch[i].path).value;
      var entry := Entry(patch[i].path, Has(left, target));
      Sequences.Assoc(inverse, [entry], Inverse(Set(left, target, patch[i].value), patch[i + 1..]));
      inverse := inverse + [entry];
      left := Set(left, target, patch[i].value);
    }
    Sequences.Empty(inverse);
  }

  // ---------------------------------------------------------------------
  // Taking a patch back
  // ---------------------------------------------------------------------

  predicate Aims(patch: Patch, target: Target)
    requires Names(patch)
    decreases |patch|
  {
    patch != [] && (TargetOf(patch[0].path).value == target || Aims(patch[1..], target))
  }

  /** No two paths of a patch name one member. */
  predicate Distinct(patch: Patch)
    requires Names(patch)
    decreases |patch|
  {
    patch == [] || (!Aims(patch[1..], TargetOf(patch[0].path).value) && Distinct(patch[1..]))
  }

  /** Whether the member is set once the patch was laid over. */
  function Outcome(patch: Patch, target: Target, before: bool): bool
    requires Names(patch)
    decreases |patch|
  {
    if patch == [] then before
    else Outcome(patch[1..], target, if TargetOf(patch[0].path).value == target then patch[0].value else before)
  }

  lemma SetHas(state: State, target: Target, value: bool, other: Target)
    ensures Has(Set(state, target, value), other) == if other == target then value else Has(state, other)
  {
  }

  lemma {:induction false} PatchedHas(state: State, patch: Patch, target: Target)
    requires Names(patch)
    ensures Has(Patched(state, patch), target) == Outcome(patch, target, Has(state, target))
    decreases |patch|
  {
    if patch != [] {
      var first := TargetOf(patch[0].path).value;
      SetHas(state, first, patch[0].value, target);
      PatchedHas(Set(state, first, patch[0].value), patch[1..], target);
    }
  }

  lemma SameMembers(a: State, b: State)
    requires forall target :: Has(a, target) == Has(b, target)
    ensures a == b
  {
    assert forall key :: key in a.keywords <==> Has(a, Target(Keywords, key));
    assert forall key :: key in b.keywords <==> Has(b, Target(Keywords, key));
    assert forall key :: key in a.mailboxIds <==> Has(a, Target(MailboxIds, key));
    assert forall key :: key in b.mailboxIds <==> Has(b, Target(MailboxIds, key));
  }

  lemma InverseNext(state: State, patch: Patch)
    requires Names(patch) && patch != []
    ensures var target := TargetOf(patch[0].path).value;
      Inverse(state, patch)[0] == Entry(patch[0].path, Has(state, target))
      && Inverse(state, patch)[1..] == Inverse(Set(state, target, patch[0].value), patch[1..])
  {
    var target := TargetOf(patch[0].path).value;
    Sequences.Behind(Entry(patch[0].path, Has(state, target)),
      Inverse(Set(state, target, patch[0].value), patch[1..]));
  }

  lemma {:induction false} NotAimed(state: State, patch: Patch, target: Target, before: bool)
    requires Names(patch) && !Aims(patch, target)
    ensures Outcome(patch, target, before) == before
    ensures Outcome(Inverse(state, patch), target, before) == before
    decreases |patch|
  {
    if patch != [] {
      var first := TargetOf(patch[0].path).value;
      InverseNext(state, patch);
      NotAimed(Set(state, first, patch[0].value), patch[1..], target, before);
    }
  }

  /** The one entry for a member is taken back to what stood before. */
  lemma {:induction false} TakenBack(state: State, patch: Patch, target: Target, after: bool)
    requires Names(patch) && Distinct(patch) && Aims(patch, target)
    ensures Outcome(Inverse(state, patch), target, after) == Has(state, target)
    decreases |patch|
  {
    var first := TargetOf(patch[0].path).value;
    var next := Set(state, first, patch[0].value);
    InverseNext(state, patch);
    SetHas(state, first, patch[0].value, target);
    if first == target {
      NotAimed(next, patch[1..], target, Has(state, target));
    } else {
      TakenBack(next, patch[1..], target, after);
    }
  }

  /** What the entry ahead of the last one for a member sets it to. */
  function LastButOne(patch: Patch, target: Target): bool
    requires Names(patch) && Aims(patch, target)
    decreases |patch|
  {
    var first := TargetOf(patch[0].path).value;
    if first == target && (!Aims(patch[1..], target) || !Twice(patch[1..], target)) then patch[0].value
    else LastButOne(patch[1..], target)
  }

  predicate Twice(patch: Patch, target: Target)
    requires Names(patch)
    decreases |patch|
  {
    patch != []
    && (if TargetOf(patch[0].path).value == target then Aims(patch[1..], target) else Twice(patch[1..], target))
  }

  lemma {:induction false} OnceTakenBack(state: State, patch: Patch, target: Target, after: bool)
    requires Names(patch) && Aims(patch, target) && !Twice(patch, target)
    ensures Outcome(Inverse(state, patch), target, after) == Has(state, target)
    decreases |patch|
  {
    var first := TargetOf(patch[0].path).value;
    var next := Set(state, first, patch[0].value);
    InverseNext(state, patch);
    SetHas(state, first, patch[0].value, target);
    if first == target {
      NotAimed(next, patch[1..], target, Has(state, target));
    } else {
      OnceTakenBack(next, patch[1..], target, after);
    }
  }

  /** A member named twice is taken back to what its first path but one set. */
  lemma {:induction false} TwiceTakenBack(state: State, patch: Patch, target: Target, after: bool)
    requires Names(patch) && Aims(patch, target) && Twice(patch, target)
    ensures Outcome(Inverse(state, patch), target, after) == LastButOne(patch, target)
    decreases |patch|
  {
    var first := TargetOf(patch[0].path).value;
    var next := Set(state, first, patch[0].value);
    InverseNext(state, patch);
    SetHas(state, first, patch[0].value, target);
    if Twice(patch[1..], target) {
      TwiceAims(patch[1..], target);
      TwiceTakenBack(next, patch[1..], target, if first == target then Has(state, target) else after);
    } else {
      OnceTakenBack(next, patch[1..], target, Has(state, target));
    }
  }

  lemma {:induction false} TwiceAims(patch: Patch, target: Target)
    requires Names(patch) && Twice(patch, target)
    ensures Aims(patch, target)
    decreases |patch|
  {
    if TargetOf(patch[0].path).value != target {
      TwiceAims(patch[1..], target);
    }
  }

  lemma {:induction false} NotDistinct(patch: Patch) returns (target: Target)
    requires Names(patch) && !Distinct(patch)
    ensures Twice(patch, target)
    decreases |patch|
  {
    target := TargetOf(patch[0].path).value;
    if !Aims(patch[1..], target) {
      target := NotDistinct(patch[1..]);
      TwiceAims(patch[1..], target);
    }
  }

  lemma Undone(state: State, patch: Patch)
    requires Names(patch) && Distinct(patch)
    ensures Patched(Patched(state, patch), Inverse(state, patch)) == state
  {
    var after := Patched(state, patch);
    var back := Patched(after, Inverse(state, patch));
    forall target ensures Has(back, target) == Has(state, target) {
      PatchedHas(state, patch, target);
      PatchedHas(after, Inverse(state, patch), target);
      if Aims(patch, target) {
        TakenBack(state, patch, target, Has(after, target));
      } else {
        NotAimed(state, patch, target, Has(state, target));
      }
    }
    SameMembers(back, state);
  }

  /** The inverse takes a patch back over every state exactly when no two of
      its paths name one member: two spellings of a path may. */
  lemma UndoneExactly(patch: Patch)
    requires Names(patch)
    ensures (forall state :: Patched(Patched(state, patch), Inverse(state, patch)) == state) <==> Distinct(patch)
  {
    if Distinct(patch) {
      forall state ensures Patched(Patched(state, patch), Inverse(state, patch)) == state {
        Undone(state, patch);
      }
    } else {
      var target := NotDistinct(patch);
      TwiceAims(patch, target);
      var state := Set(State({}, {}), target, !LastButOne(patch, target));
      SetHas(State({}, {}), target, !LastButOne(patch, target), target);
      var after := Patched(state, patch);
      TwiceTakenBack(state, patch, target, Has(after, target));
      PatchedHas(after, Inverse(state, patch), target);
      assert Patched(Patched(state, patch), Inverse(state, patch)) != state;
    }
  }

  /** Two spellings of one keyword. */
  lemma TwoSpellings()
    ensures TargetOf("keywords/~") == TargetOf("keywords/~0") == Some(Target(Keywords, "~"))
  {
    assert "keywords/~"[9..] == "~" && "keywords/~0"[9..] == "~0";
    assert ReplacePair("~0", '~', '1', "/") == "~0" by {
      Two('~', '0', []);
      PairMisses('~', '0', [], '~', '1', "/");
    }
    assert ReplacePair("~0", '~', '0', "~") == "~" by {
      Two('~', '0', []);
      PairHits([], '~', '0', "~");
    }
    assert StartsWith("keywords/~", Keywords) && StartsWith("keywords/~0", Keywords);
  }

  /** A patch of both, laid over an email without the keyword and taken back,
      leaves the keyword there. */
  lemma TwoSpellingsStay()
    ensures var patch := [Entry("keywords/~", true), Entry("keywords/~0", true)];
      && Names(patch) && !Distinct(patch)
      && Patched(Patched(State({}, {}), patch), Inverse(State({}, {}), patch)) == State({"~"}, {})
  {
    TwoSpellings();
    var first, second := Entry("keywords/~", true), Entry("keywords/~0", true);
    var patch := [first, second];
    assert patch[1..] == [second] && [second][1..] == [];
    assert Names([second]) && Names(patch);
    var before, after := State({}, {}), State({"~"}, {});
    var target := Target(Keywords, "~");
    assert Set(before, target, true) == after && Set(after, target, true) == after;
    assert Set(after, target, false) == before;
    assert Patched(after, [second]) == Patched(after, []) == after;
    assert Patched(before, patch) == Patched(after, [second]);
    var undo, redo := Entry("keywords/~", false), Entry("keywords/~0", true);
    assert Inverse(after, [second]) == [redo] && Inverse(before, patch) == [undo] + [redo];
    assert [undo, redo][1..] == [redo] && [redo][1..] == [];
    assert Patched(before, [redo]) == Patched(after, []);
    assert Patched(after, [undo, redo]) == Patched(before, [redo]);
  }

  // ---------------------------------------------------------------------
  // The pending rows of an email
  // ---------------------------------------------------------------------

  datatype Row = Row(patch: Patch, inverse: Patch, destroy: bool)

  /** The members of a set in some order. */
  ghost function Listed(keys: set<string>): (listed: seq<string>)
    ensures |listed| == |keys| && forall key :: key in listed <==> key in keys
    ensures forall i, j :: 0 <= i < j < |listed| ==> listed[i] != listed[j]
  {
    if keys == {} then []
    else
      var key :| key in keys;
      var rest := keys - {key};
      assert keys == rest + {key};
      [key] + Listed(rest)
  }

  function Leaving(ids: seq<string>): Patch
    decreases |ids|
  {
    if ids == [] then [] else [Entry(PathOf(MailboxIds, ids[0]), false)] + Leaving(ids[1..])
  }

  /** The patch that takes an email out of every mailbox it stands in. */
  ghost function Emptied(state: State): Patch {
    Leaving(Listed(state.mailboxIds))
  }

  ghost predicate Real(state: State) {
    "" !in state.keywords && "" !in state.mailboxIds
  }

  lemma {:induction false} LeavingAims(ids: seq<string>, target: Target)
    requires "" !in ids
    ensures Names(Leaving(ids))
    ensures Aims(Leaving(ids), target) <==> target.members == MailboxIds && target.key in ids
    decreases |ids|
  {
    if ids != [] {
      Sequences.Behind(Entry(PathOf(MailboxIds, ids[0]), false), Leaving(ids[1..]));
      PathRoundTripExactly(MailboxIds, ids[0]);
      LeavingAims(ids[1..], target);
    }
  }

  lemma {:induction false} LeavingDistinct(ids: seq<string>)
    requires "" !in ids && forall i, j :: 0 <= i < j < |ids| ==> ids[i] != ids[j]
    ensures Names(Leaving(ids)) && Distinct(Leaving(ids))
    decreases |ids|
  {
    if ids != [] {
      Sequences.Behind(Entry(PathOf(MailboxIds, ids[0]), false), Leaving(ids[1..]));
      PathRoundTripExactly(MailboxIds, ids[0]);
      LeavingDistinct(ids[1..]);
      LeavingAims(ids[1..], Target(MailboxIds, ids[0]));
    }
  }

  lemma EmptiedNames(state: State)
    requires Real(state)
    ensures Names(Emptied(state)) && Distinct(Emptied(state))
  {
    LeavingDistinct(Listed(state.mailboxIds));
  }

  /** A destroy leaves an email in no mailbox and its keywords alone. */
  lemma EmptiedLeaves(state: State)
    requires Real(state)
    ensures Names(Emptied(state)) && Patched(state, Emptied(state)) == State(state.keywords, {})
  {
    EmptiedNames(state);
    var patch := Emptied(state);
    forall target
      ensures Has(Patched(state, patch), target) == Has(State(state.keywords, {}), target)
    {
      PatchedHas(state, patch, target);
      LeavingAims(Listed(state.mailboxIds), target);
      LeavingFalse(Listed(state.mailboxIds), target, Has(state, target));
    }
    SameMembers(Patched(state, patch), State(state.keywords, {}));
  }

  lemma {:induction false} LeavingFalse(ids: seq<string>, target: Target, before: bool)
    requires "" !in ids && Names(Leaving(ids))
    ensures Outcome(Leaving(ids), target, before)
      == if target.members == MailboxIds && target.key in ids then false else before
    decreases |ids|
  {
    if ids != [] {
      Sequences.Behind(Entry(PathOf(MailboxIds, ids[0]), false), Leaving(ids[1..]));
      PathRoundTripExactly(MailboxIds, ids[0]);
      var hit := target == Target(MailboxIds, ids[0]);
      LeavingFalse(ids[1..], target, if hit then false else before);
    }
  }

  /** The patch a row lays over a state: a destroy empties it as it stands. */
  ghost function Fitting(state: State, row: Row): Patch {
    if row.destroy then Emptied(state) else row.patch
  }

  /** Rows fit to be laid: each names members, none of them twice. */
  ghost predicate Fit(rows: seq<Row>) {
    forall i :: 0 <= i < |rows| && !rows[i].destroy ==> Names(rows[i].patch) && Distinct(rows[i].patch)
  }

  /** No path names an empty key. */
  lemma TargetKeyed(path: string)
    requires TargetOf(path).Some?
    ensures TargetOf(path).value.key != ""
  {
  }

  lemma {:induction false} NamedKeyed(patch: Patch, members: Members)
    requires Names(patch)
    ensures !Aims(patch, Target(members, ""))
    decreases |patch|
  {
    if patch != [] {
      TargetKeyed(patch[0].path);
      NamedKeyed(patch[1..], members);
    }
  }

  lemma FittingNames(state: State, rows: seq<Row>)
    requires Real(state) && rows != [] && Fit(rows)
    ensures var patch := Fitting(state, rows[0]);
      Names(patch) && Distinct(patch) && Real(Patched(state, patch)) && Fit(rows[1..])
  {
    var patch := Fitting(state, rows[0]);
    if rows[0].destroy {
      EmptiedNames(state);
      EmptiedLeaves(state);
    } else {
      PatchedHas(state, patch, Target(Keywords, ""));
      PatchedHas(state, patch, Target(MailboxIds, ""));
      NamedKeyed(patch, Keywords);
      NamedKeyed(patch, MailboxIds);
      NotAimed(state, patch, Target(Keywords, ""), false);
      NotAimed(state, patch, Target(MailboxIds, ""), false);
    }
  }

  /** Every row laid over a state, the oldest first, each with the inverse that
      fits the state it met. */
  ghost function Replayed(state: State, rows: seq<Row>): (State, seq<Row>)
    requires Real(state) && Fit(rows)
    decreases |rows|
  {
    if rows == [] then (state, [])
    else
      FittingNames(state, rows);
      var patch := Fitting(state, rows[0]);
      var (left, later) := Replayed(Patched(state, patch), rows[1..]);
      (left, [Row(patch, Inverse(state, patch), rows[0].destroy)] + later)
  }

  predicate Undoable(rows: seq<Row>)
    decreases |rows|
  {
    rows == [] || (Names(rows[0].inverse) && Undoable(rows[1..]))
  }

  /** The state ahead of the rows, the newest undone first. */
  function Unpatched(state: State, rows: seq<Row>): State
    requires Undoable(rows)
    decreases |rows|
  {
    if rows == [] then state else Patched(Unpatched(state, rows[1..]), rows[0].inverse)
  }

  /** Rows replayed over a state and undone again leave it as it was, destroys
      among them. */
  lemma {:induction false} ReplayUndone(state: State, rows: seq<Row>)
    requires Real(state) && Fit(rows)
    ensures var (left, fitted) := Replayed(state, rows);
      && |fitted| == |rows| && Undoable(fitted) && Unpatched(left, fitted) == state
    decreases |rows|
  {
    if rows != [] {
      FittingNames(state, rows);
      var patch := Fitting(state, rows[0]);
      ReplayUndone(Patched(state, patch), rows[1..]);
      Sequences.Behind(Row(patch, Inverse(state, patch), rows[0].destroy),
        Replayed(Patched(state, patch), rows[1..]).1);
      Undone(state, patch);
    }
  }
}

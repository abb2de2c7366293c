/** The actions a user takes on a thread: which ones a mailbox offers, the
    changes each makes, and the reverse reading of a logged change. */
module Actions {
  import opened Wrappers
  import opened Patch
  import Sequences

  datatype Action =
    | Archive
    | Delete
    | DeleteForever
    | Spam
    | NotSpam
    | MarkRead
    | MarkUnread
    | Star
    | Unstar
    | Move

  datatype Role = Inbox | ArchiveBox | Trash | Junk | OtherRole(name: string)

  datatype Rights = Rights(mayAddItems: bool, mayRemoveItems: bool, maySetSeen: bool, maySetKeywords: bool)

  datatype Mailbox = Mailbox(id: string, role: Option<Role>, rights: Rights)

  datatype Offered = Offered(
    archive: Option<string>,
    trash: Option<string>,
    deleteForever: bool,
    spam: Option<string>,
    junkKeywords: bool,
    seen: bool,
    flag: bool,
    move: seq<string>)

  datatype Thread = Thread(threadId: string, memberIds: seq<string>)

  /** A change of one email: a patch, or a destroy. */
  datatype Mutation = Change(id: string, threadId: string, patch: Patch) | Destroy(id: string, threadId: string)

  const SEEN := "$seen"
  const FLAGGED := "$flagged"
  const JUNK := "$junk"
  const NOT_JUNK := "$notjunk"

  // ---------------------------------------------------------------------
  // What a mailbox offers
  // ---------------------------------------------------------------------

  predicate IsBin(box: Mailbox) {
    box.role == Some(Trash) || box.role == Some(Junk)
  }

  /** The first mailbox of a role. */
  function FirstOf(mailboxes: seq<Mailbox>, role: Role): Option<Mailbox>
    decreases |mailboxes|
  {
    if mailboxes == [] then None
    else if mailboxes[0].role == Some(role) then Some(mailboxes[0])
    else FirstOf(mailboxes[1..], role)
  }

  function RoleBox(mailboxes: seq<Mailbox>, role: Role, shown: Mailbox): Option<string> {
    var found := FirstOf(mailboxes, role);
    if found.Some? && found.value.id != shown.id && found.value.rights.mayAddItems then Some(found.value.id) else None
  }

  function Enterable(mailboxes: seq<Mailbox>, shown: Mailbox): seq<string>
    decreases |mailboxes|
  {
    if mailboxes == [] then []
    else
      var row := mailboxes[0];
      (if row.id != shown.id && !IsBin(row) && row.rights.mayAddItems then [row.id] else [])
      + Enterable(mailboxes[1..], shown)
  }

  function OfferedActions(shown: Mailbox, mailboxes: seq<Mailbox>): Offered {
    var leaves := shown.rights.mayRemoveItems;
    var kept := leaves && !IsBin(shown);
    var spam := RoleBox(mailboxes, if shown.role == Some(Junk) then Inbox else Junk, shown);
    Offered(
      if kept then RoleBox(mailboxes, ArchiveBox, shown) else None,
      if kept then RoleBox(mailboxes, Trash, shown) else None,
      leaves && IsBin(shown),
      if leaves then spam else None,
      shown.rights.maySetKeywords,
      shown.rights.maySetSeen,
      shown.rights.maySetKeywords,
      if leaves then Enterable(mailboxes, shown) else [])
  }

  // ---------------------------------------------------------------------
  // The changes of an action
  // ---------------------------------------------------------------------

  function Keyword(key: string, value: bool): Patch {
    [Entry(PathOf(Keywords, key), value)]
  }

  function EachMember(thread: Thread, ids: seq<string>, patch: Patch): (changes: seq<Mutation>)
    ensures |changes| == |ids|
    ensures forall i :: 0 <= i < |ids| ==> changes[i] == Change(ids[i], thread.threadId, patch)
    decreases |ids|
  {
    if ids == [] then [] else [Change(ids[0], thread.threadId, patch)] + EachMember(thread, ids[1..], patch)
  }

  function Newest(thread: Thread, patch: Patch): seq<Mutation> {
    var ids := thread.memberIds;
    if ids == [] then [] else [Change(ids[|ids| - 1], thread.threadId, patch)]
  }

  function JunkPatch(offered: Offered, junk: bool): Patch {
    if !offered.junkKeywords then [] else Keyword(JUNK, junk) + Keyword(NOT_JUNK, !junk)
  }

  /** The mailbox left and the one entered, in one patch. */
  function MovePatch(shown: Mailbox, to: string, keywords: Patch): Patch {
    [Entry(PathOf(MailboxIds, shown.id), false), Entry(PathOf(MailboxIds, to), true)] + keywords
  }

  function Moving(thread: Thread, shown: Mailbox, to: Option<string>, keywords: Patch): seq<Mutation> {
    if to.None? then [] else EachMember(thread, thread.memberIds, MovePatch(shown, to.value, keywords))
  }

  function Destroying(thread: Thread, ids: seq<string>): (changes: seq<Mutation>)
    ensures |changes| == |ids|
    ensures forall i :: 0 <= i < |ids| ==> changes[i] == Destroy(ids[i], thread.threadId)
    decreases |ids|
  {
    if ids == [] then [] else [Destroy(ids[0], thread.threadId)] + Destroying(thread, ids[1..])
  }

  function ActionMutations(action: Action, shown: Mailbox, offered: Offered, thread: Thread): seq<Mutation> {
    match action
    case Archive => Moving(thread, shown, offered.archive, [])
    case Delete => Moving(thread, shown, offered.trash, [])
    case DeleteForever => if offered.deleteForever then Destroying(thread, thread.memberIds) else []
    case Spam =>
      if shown.role == Some(Junk) then [] else Moving(thread, shown, offered.spam, JunkPatch(offered, true))
    case NotSpam =>
      if shown.role == Some(Junk) then Moving(thread, shown, offered.spam, JunkPatch(offered, false)) else []
    case MarkRead => if offered.seen then EachMember(thread, thread.memberIds, Keyword(SEEN, true)) else []
    case MarkUnread => if offered.seen then Newest(thread, Keyword(SEEN, false)) else []
    case Star => if offered.flag then Newest(thread, Keyword(FLAGGED, true)) else []
    case Unstar => if offered.flag then EachMember(thread, thread.memberIds, Keyword(FLAGGED, false)) else []
    case Move => []
  }

  function MoveMutations(shown: Mailbox, offered: Offered, thread: Thread, to: string): seq<Mutation> {
    if to in offered.move then Moving(thread, shown, Some(to), []) else []
  }

  // ---------------------------------------------------------------------
  // The reverse reading
  // ---------------------------------------------------------------------

  function RoleOf(mailboxes: seq<Mailbox>, id: string): Option<Role>
    decreases |mailboxes|
  {
    if mailboxes == [] then None
    else
      var last := mailboxes[|mailboxes| - 1];
      if last.id == id then last.role else RoleOf(mailboxes[..|mailboxes| - 1], id)
  }

  /** The mailboxes a patch enters, or those it leaves, in order. */
  function Crossed(patch: Patch, entered: bool): seq<string>
    requires Names(patch)
    decreases |patch|
  {
    if patch == [] then []
    else
      var target := TargetOf(patch[0].path).value;
      (if target.members == MailboxIds && patch[0].value == entered then [target.key] else [])
      + Crossed(patch[1..], entered)
  }

  function RolesOf(mailboxes: seq<Mailbox>, ids: seq<string>): seq<Option<Role>>
    decreases |ids|
  {
    if ids == [] then [] else [RoleOf(mailboxes, ids[0])] + RolesOf(mailboxes, ids[1..])
  }

  datatype Crossing = Crossing(to: Option<Role>, from: seq<Option<Role>>)

  function Between(patch: Patch, mailboxes: seq<Mailbox>): Option<Crossing>
    requires Names(patch)
  {
    var entered := Crossed(patch, true);
    if entered == [] then None
    else Some(Crossing(RoleOf(mailboxes, entered[0]), RolesOf(mailboxes, Crossed(patch, false))))
  }

  /** The roles of the mailboxes a move entered and left; none for a change
      that enters no mailbox. */
  method MovedBetween(patch: Patch, mailboxes: seq<Mailbox>) returns (moved: Option<Crossing>)
    requires Names(patch)
    ensures moved == Between(patch, mailboxes)
  {
    var entered: seq<string>, left: seq<string> := [], [];
    Sequences.From0(patch);
    Sequences.Empty(Crossed(patch, true));
    Sequences.Empty(Crossed(patch, false));
    for i := 0 to |patch|
      invariant Names(patch[i..])
      invariant entered + Crossed(patch[i..], true) == Crossed(patch, true)
      invariant left + Crossed(patch[i..], false) == Crossed(patch, false)
    {
      Sequences.Front(patch, i);
      var target := TargetOf(patch[i].path).value;
      Sequences.Assoc(entered, [target.key], Crossed(patch[i + 1..], true));
      Sequences.Assoc(left, [target.key], Crossed(patch[i + 1..], false));
      Sequences.Empty(Crossed(patch[i + 1..], true));
      Sequences.Empty(Crossed(patch[i + 1..], false));
      if target.members == MailboxIds {
        if patch[i].value {
          entered := entered + [target.key];
        } else {
          left := left + [target.key];
        }
      }
    }
    Sequences.Empty(entered);
    Sequences.Empty(left);
    moved := if entered == [] then None else Some(Crossing(RoleOf(mailboxes, entered[0]), RolesOf(mailboxes, left)));
  }

  function ValueAt(patch: Patch, path: string): Option<bool>
    decreases |patch|
  {
    if patch == [] then None
    else
      var later := ValueAt(patch[1..], path);
      if later.Some? then later else if patch[0].path == path then Some(patch[0].value) else None
  }

  function MarkVerb(patch: Patch): Action {
    var flagged := ValueAt(patch, PathOf(Keywords, FLAGGED));
    var seen := ValueAt(patch, PathOf(Keywords, SEEN));
    if flagged.Some? then (if flagged.value then Star else Unstar)
    else if seen.Some? then (if seen.value then MarkRead else MarkUnread)
    else Move
  }

  function Entered(role: Option<Role>): Action {
    match role
    case Some(ArchiveBox) => Archive
    case Some(Trash) => Delete
    case Some(Junk) => Spam
    case _ => Move
  }

  /** A logged change by what it did. */
  function VerbOf(change: Mutation, mailboxes: seq<Mailbox>): Action
    requires change.Change? ==> Names(change.patch)
  {
    if change.Destroy? then DeleteForever
    else
      var moved := Between(change.patch, mailboxes);
      if moved.None? then MarkVerb(change.patch)
      else if moved.value.to == Some(Inbox) && Some(Junk) in moved.value.from then NotSpam
      else Entered(moved.value.to)
  }

  // ---------------------------------------------------------------------
  // An action reads back as itself
  // ---------------------------------------------------------------------

  /** A list as an account holds it: ids are not empty and stand once. */
  predicate Proper(mailboxes: seq<Mailbox>) {
    (forall i :: 0 <= i < |mailboxes| ==> mailboxes[i].id != "")
    && forall i, j :: 0 <= i < j < |mailboxes| ==> mailboxes[i].id != mailboxes[j].id
  }

  lemma {:induction false} RoleIs(mailboxes: seq<Mailbox>, box: Mailbox)
    requires Proper(mailboxes) && box in mailboxes
    ensures RoleOf(mailboxes, box.id) == box.role && box.id != ""
    decreases |mailboxes|
  {
    var last := |mailboxes| - 1;
    if mailboxes[last].id != box.id {
      RoleIs(mailboxes[..last], box);
    } else {
      var i :| 0 <= i < |mailboxes| && mailboxes[i] == box;
      assert i == last;
    }
  }

  lemma {:induction false} FirstIs(mailboxes: seq<Mailbox>, role: Role)
    requires FirstOf(mailboxes, role).Some?
    ensures FirstOf(mailboxes, role).value in mailboxes && FirstOf(mailboxes, role).value.role == Some(role)
    decreases |mailboxes|
  {
    if mailboxes[0].role != Some(role) {
      FirstIs(mailboxes[1..], role);
    }
  }

  lemma {:induction false} EnterableIs(mailboxes: seq<Mailbox>, shown: Mailbox, to: string)
    ensures to in Enterable(mailboxes, shown)
      <==> exists box :: box in mailboxes && box.id == to && to != shown.id && !IsBin(box) && box.rights.mayAddItems
    decreases |mailboxes|
  {
    if mailboxes != [] {
      EnterableIs(mailboxes[1..], shown, to);
      Sequences.Cons(mailboxes);
      assert forall box :: box in mailboxes <==> box == mailboxes[0] || box in mailboxes[1..];
    }
  }

  lemma MoveParts(shown: Mailbox, to: string, keywords: Patch)
    requires shown.id != "" && to != ""
    ensures var patch := MovePatch(shown, to, keywords);
      && |patch| >= 2 && patch[0] == Entry(PathOf(MailboxIds, shown.id), false)
      && patch[1..] != [] && patch[1..][0] == Entry(PathOf(MailboxIds, to), true)
      && patch[1..][1..] == keywords
    ensures TargetOf(PathOf(MailboxIds, shown.id)) == Some(Target(MailboxIds, shown.id))
    ensures TargetOf(PathOf(MailboxIds, to)) == Some(Target(MailboxIds, to))
  {
    PathRoundTripExactly(MailboxIds, shown.id);
    PathRoundTripExactly(MailboxIds, to);
    hide TargetOf, PathOf;
  }

  /** The entries of a move, read one by one. */
  lemma MoveEntries(shown: Mailbox, to: string, keywords: Patch)
    requires shown.id != "" && to != "" && Names(keywords)
    ensures var patch := MovePatch(shown, to, keywords);
      && Names(patch)
      && Crossed(patch, true) == [to] + Crossed(keywords, true)
      && Crossed(patch, false) == [shown.id] + Crossed(keywords, false)
  {
    MoveParts(shown, to, keywords);
    hide TargetOf, PathOf, MovePatch;
    var enter := MovePatch(shown, to, keywords)[1..];
    Sequences.Empty(Crossed(enter, true));
    Sequences.Empty(Crossed(keywords, false));
  }

  lemma KeywordEntry(key: string, value: bool)
    requires key != ""
    ensures Names(Keyword(key, value)) && Crossed(Keyword(key, value), true) == []
    ensures Crossed(Keyword(key, value), false) == []
    ensures TargetOf(PathOf(Keywords, key)) == Some(Target(Keywords, key))
    ensures Distinct(Keyword(key, value))
    ensures forall target :: Aims(Keyword(key, value), target) <==> target == Target(Keywords, key)
  {
    PathRoundTripExactly(Keywords, key);
    hide TargetOf, PathOf;
    assert Keyword(key, value)[1..] == [];
  }

  lemma KeywordPair(a: string, b: string, first: bool, second: bool)
    requires a != "" && b != "" && a != b
    ensures var patch := Keyword(a, first) + Keyword(b, second);
      && Names(patch) && Distinct(patch)
      && Crossed(patch, true) == [] && Crossed(patch, false) == []
      && forall key :: !Aims(patch, Target(MailboxIds, key))
  {
    KeywordEntry(a, first);
    KeywordEntry(b, second);
    hide TargetOf, PathOf;
    Sequences.Behind(Entry(PathOf(Keywords, a), first), Keyword(b, second));
  }

  lemma NoEntries()
    ensures Names([]) && Distinct([]) && Crossed([], true) == [] && Crossed([], false) == []
    ensures forall key :: !Aims([], Target(MailboxIds, key))
  {
  }

  lemma MarkNames()
    ensures SEEN != "" && FLAGGED != "" && JUNK != "" && NOT_JUNK != ""
    ensures SEEN != FLAGGED && JUNK != NOT_JUNK
  {
    assert SEEN[1] != FLAGGED[1] && JUNK[1] != NOT_JUNK[1];
  }

  lemma JunkEntries(offered: Offered, junk: bool)
    ensures Names(JunkPatch(offered, junk))
    ensures Crossed(JunkPatch(offered, junk), true) == [] && Crossed(JunkPatch(offered, junk), false) == []
    ensures Distinct(JunkPatch(offered, junk))
    ensures forall key :: !Aims(JunkPatch(offered, junk), Target(MailboxIds, key))
  {
    MarkNames();
    KeywordPair(JUNK, NOT_JUNK, junk, !junk);
    NoEntries();
    hide Keyword, Names, Distinct, Crossed, Aims;
  }

  /** A move reads by the role of the mailbox it enters, and as not spam from
      Junk to the inbox. */
  lemma MoveReads(shown: Mailbox, target: Mailbox, keywords: Patch, mailboxes: seq<Mailbox>, change: Mutation)
    requires Proper(mailboxes) && shown in mailboxes && target in mailboxes
    requires Names(keywords) && Crossed(keywords, true) == [] && Crossed(keywords, false) == []
    requires change.Change? && change.patch == MovePatch(shown, target.id, keywords)
    ensures Names(change.patch)
    ensures VerbOf(change, mailboxes) ==
      if target.role == Some(Inbox) && shown.role == Some(Junk) then NotSpam else Entered(target.role)
  {
    RoleIs(mailboxes, shown);
    RoleIs(mailboxes, target);
    MoveEntries(shown, target.id, keywords);
    Sequences.Empty([target.id]);
    Sequences.Empty([shown.id]);
    Sequences.Behind<string>(shown.id, []);
    Sequences.Empty([RoleOf(mailboxes, shown.id)]);
    assert RolesOf(mailboxes, [shown.id]) == [shown.role];
  }

  lemma MarkIs(key: string, other: string, value: bool)
    requires key != "" && other != "" && key != other
    ensures Names(Keyword(key, value)) && Crossed(Keyword(key, value), true) == []
    ensures ValueAt(Keyword(key, value), PathOf(Keywords, key)) == Some(value)
    ensures ValueAt(Keyword(key, value), PathOf(Keywords, other)) == None
  {
    KeywordEntry(key, value);
    KeywordEntry(other, value);
    hide TargetOf, PathOf;
    assert Keyword(key, value)[1..] == [];
  }

  /** The flag and the seen mark are told apart by their paths. */
  lemma MarkReads(key: string, value: bool, change: Mutation, mailboxes: seq<Mailbox>)
    requires key == SEEN || key == FLAGGED
    requires change.Change? && change.patch == Keyword(key, value)
    ensures Names(change.patch)
    ensures VerbOf(change, mailboxes) ==
      if key == FLAGGED then (if value then Star else Unstar) else (if value then MarkRead else MarkUnread)
  {
    MarkNames();
    MarkIs(key, if key == SEEN then FLAGGED else SEEN, value);
    hide Keyword, ValueAt, Crossed, Names, PathOf;
  }

  predicate Moves(action: Action) {
    action.Archive? || action.Delete? || action.Spam? || action.NotSpam?
  }

  function TargetRole(action: Action): Role
    requires Moves(action)
  {
    match action
    case Archive => ArchiveBox
    case Delete => Trash
    case Spam => Junk
    case _ => Inbox
  }

  /** What a moving action writes beside the move. */
  function Beside(action: Action, offered: Offered): Patch {
    if action.Spam? || action.NotSpam? then JunkPatch(offered, action.Spam?) else []
  }

  lemma BesideEntries(action: Action, offered: Offered)
    ensures var keywords := Beside(action, offered);
      && Names(keywords) && Distinct(keywords)
      && Crossed(keywords, true) == [] && Crossed(keywords, false) == []
      && forall key :: !Aims(keywords, Target(MailboxIds, key))
  {
    JunkEntries(offered, action.Spam?);
    hide JunkPatch;
  }

  /** A change of a moving action names the mailbox shown and the one of the
      action's role, never the same one. */
  lemma MoveBuilt(action: Action, shown: Mailbox, mailboxes: seq<Mailbox>, thread: Thread, i: nat)
    returns (box: Mailbox)
    requires Moves(action)
    requires i < |ActionMutations(action, shown, OfferedActions(shown, mailboxes), thread)|
    ensures box in mailboxes && box.role == Some(TargetRole(action)) && box.id != shown.id
    ensures action.NotSpam? <==> shown.role == Some(Junk)
    ensures i < |thread.memberIds|
    ensures var offered := OfferedActions(shown, mailboxes);
      ActionMutations(action, shown, offered, thread)[i]
      == Change(thread.memberIds[i], thread.threadId, MovePatch(shown, box.id, Beside(action, offered)))
  {
    box := FirstOf(mailboxes, TargetRole(action)).value;
    FirstIs(mailboxes, TargetRole(action));
    hide FirstOf, MovePatch, JunkPatch;
  }

  lemma RoleReads(action: Action, from: Option<Role>)
    requires Moves(action) && (action.NotSpam? <==> from == Some(Junk))
    ensures (if TargetRole(action) == Inbox && from == Some(Junk) then NotSpam else Entered(Some(TargetRole(action))))
      == action
  {
  }

  lemma MoveActionReadsBack(action: Action, shown: Mailbox, mailboxes: seq<Mailbox>, thread: Thread, i: nat)
    requires Proper(mailboxes) && shown in mailboxes && Moves(action)
    requires i < |ActionMutations(action, shown, OfferedActions(shown, mailboxes), thread)|
    ensures var change := ActionMutations(action, shown, OfferedActions(shown, mailboxes), thread)[i];
      && (change.Change? ==> Names(change.patch))
      && VerbOf(change, mailboxes) == action
      && change.threadId == thread.threadId && change.id in thread.memberIds
  {
    var offered := OfferedActions(shown, mailboxes);
    var box := MoveBuilt(action, shown, mailboxes, thread, i);
    RoleReads(action, shown.role);
    hide ActionMutations, OfferedActions, VerbOf, Names, Crossed, MovePatch, Beside, Entered, TargetRole, Proper;
    BesideEntries(action, offered);
    MoveReads(shown, box, Beside(action, offered), mailboxes, ActionMutations(action, shown, offered, thread)[i]);
  }

  /** Every change an offered action builds reads back as that action. */
  lemma ActionReadsBack(action: Action, shown: Mailbox, mailboxes: seq<Mailbox>, thread: Thread, i: nat)
    requires Proper(mailboxes) && shown in mailboxes
    requires i < |ActionMutations(action, shown, OfferedActions(shown, mailboxes), thread)|
    ensures var change := ActionMutations(action, shown, OfferedActions(shown, mailboxes), thread)[i];
      && (change.Change? ==> Names(change.patch))
      && VerbOf(change, mailboxes) == action
      && change.threadId == thread.threadId && change.id in thread.memberIds
  {
    hide ActionMutations, OfferedActions, VerbOf, Names, Proper;
    if Moves(action) {
      MoveActionReadsBack(action, shown, mailboxes, thread, i);
    } else {
      MarkReadsBack(action, shown, OfferedActions(shown, mailboxes), mailboxes, thread, i);
    }
  }

  lemma MarkReadsBack(
      action: Action, shown: Mailbox, offered: Offered, mailboxes: seq<Mailbox>, thread: Thread, i: nat)
    requires !Moves(action) && i < |ActionMutations(action, shown, offered, thread)|
    ensures var change := ActionMutations(action, shown, offered, thread)[i];
      && (change.Change? ==> Names(change.patch))
      && VerbOf(change, mailboxes) == action
      && change.threadId == thread.threadId && change.id in thread.memberIds
  {
    var change := ActionMutations(action, shown, offered, thread)[i];
    hide VerbOf, Keyword, Names;
    if action.MarkRead? || action.MarkUnread? {
      MarkReads(SEEN, action.MarkRead?, change, mailboxes);
    } else if action.Star? || action.Unstar? {
      MarkReads(FLAGGED, action.Star?, change, mailboxes);
    } else {
      assert VerbOf(change, mailboxes) == DeleteForever by {
        DestroyReads(change, mailboxes);
      }
    }
  }

  lemma DestroyReads(change: Mutation, mailboxes: seq<Mailbox>)
    requires change.Destroy?
    ensures VerbOf(change, mailboxes) == DeleteForever
  {
  }

  lemma PickBuilt(shown: Mailbox, mailboxes: seq<Mailbox>, thread: Thread, to: string, i: nat) returns (box: Mailbox)
    requires i < |MoveMutations(shown, OfferedActions(shown, mailboxes), thread, to)|
    ensures box in mailboxes && box.id == to && to != shown.id && !IsBin(box)
    ensures i < |thread.memberIds|
    ensures MoveMutations(shown, OfferedActions(shown, mailboxes), thread, to)[i]
      == Change(thread.memberIds[i], thread.threadId, MovePatch(shown, to, []))
  {
    EnterableIs(mailboxes, shown, to);
    box :| box in mailboxes && box.id == to && to != shown.id && !IsBin(box);
    hide Enterable, MovePatch, RoleBox;
  }

  /** A move the user picked reads by where it went: not spam from Junk to the
      inbox, archive into the archive, a move anywhere else. */
  lemma MoveReadsBack(shown: Mailbox, mailboxes: seq<Mailbox>, thread: Thread, target: Mailbox, i: nat)
    requires Proper(mailboxes) && shown in mailboxes && target in mailboxes
    requires i < |MoveMutations(shown, OfferedActions(shown, mailboxes), thread, target.id)|
    ensures var change := MoveMutations(shown, OfferedActions(shown, mailboxes), thread, target.id)[i];
      && (change.Change? ==> Names(change.patch))
      && VerbOf(change, mailboxes) ==
        if target.role == Some(Inbox) && shown.role == Some(Junk) then NotSpam
        else if target.role == Some(ArchiveBox) then Archive
        else Move
  {
    hide OfferedActions, MoveMutations, VerbOf, Names, Crossed, MovePatch, Aims, Distinct;
    var box := PickBuilt(shown, mailboxes, thread, target.id, i);
    var change := MoveMutations(shown, OfferedActions(shown, mailboxes), thread, target.id)[i];
    NoEntries();
    RoleIs(mailboxes, box);
    RoleIs(mailboxes, target);
    MoveReads(shown, target, [], mailboxes, change);
  }

  // ---------------------------------------------------------------------
  // What a move does to an email
  // ---------------------------------------------------------------------

  /** Laid over an email in the mailbox shown, a move takes it out of that one
      and into the target, leaves its other mailboxes alone, and never leaves
      it in none; and it can be taken back. */
  lemma MoveMoves(shown: Mailbox, to: string, keywords: Patch, state: State)
    requires shown.id != "" && to != "" && to != shown.id && shown.id in state.mailboxIds
    requires Names(keywords) && Distinct(keywords) && forall key :: !Aims(keywords, Target(MailboxIds, key))
    ensures var patch := MovePatch(shown, to, keywords);
      && Names(patch)
      && Patched(state, patch).mailboxIds == state.mailboxIds - {shown.id} + {to}
      && Patched(state, patch).mailboxIds != {}
      && Patched(Patched(state, patch), Inverse(state, patch)) == state
  {
    var patch := MovePatch(shown, to, keywords);
    MoveParts(shown, to, keywords);
    hide TargetOf, PathOf, MovePatch, Inverse, Patched;
    var after := Patched(state, patch);
    forall key ensures key in after.mailboxIds <==> key in state.mailboxIds - {shown.id} + {to} {
      var target := Target(MailboxIds, key);
      PatchedHas(state, patch, target);
      NotAimed(state, keywords, target,
        if key == to then true else if key == shown.id then false else Has(state, target));
    }
    assert to in after.mailboxIds;
    Undone(state, patch);
  }

  /** So it is for every change of every moving action. */
  lemma ActionMoves(action: Action, shown: Mailbox, mailboxes: seq<Mailbox>, thread: Thread, i: nat, state: State)
    requires Proper(mailboxes) && shown in mailboxes && Moves(action)
    requires i < |ActionMutations(action, shown, OfferedActions(shown, mailboxes), thread)|
    requires shown.id in state.mailboxIds
    ensures var change := ActionMutations(action, shown, OfferedActions(shown, mailboxes), thread)[i];
      && change.Change? && Names(change.patch)
      && (exists box :: box in mailboxes && box.role == Some(TargetRole(action)) && box.id != shown.id
            && Patched(state, change.patch).mailboxIds == state.mailboxIds - {shown.id} + {box.id})
      && Patched(state, change.patch).mailboxIds != {}
      && Patched(Patched(state, change.patch), Inverse(state, change.patch)) == state
  {
    var offered := OfferedActions(shown, mailboxes);
    var box := MoveBuilt(action, shown, mailboxes, thread, i);
    hide ActionMutations, MovePatch, Patched, Inverse, Names, Distinct, Aims;
    RoleIs(mailboxes, shown);
    RoleIs(mailboxes, box);
    BesideEntries(action, offered);
    MoveMoves(shown, box.id, Beside(action, offered), state);
  }

  /** And for every move the user picked. */
  lemma PickedMoves(shown: Mailbox, mailboxes: seq<Mailbox>, thread: Thread, to: string, i: nat, state: State)
    requires Proper(mailboxes) && shown in mailboxes && shown.id in state.mailboxIds
    requires i < |MoveMutations(shown, OfferedActions(shown, mailboxes), thread, to)|
    ensures var change := MoveMutations(shown, OfferedActions(shown, mailboxes), thread, to)[i];
      && change.Change? && Names(change.patch)
      && Patched(state, change.patch).mailboxIds == state.mailboxIds - {shown.id} + {to}
      && Patched(state, change.patch).mailboxIds != {}
      && Patched(Patched(state, change.patch), Inverse(state, change.patch)) == state
  {
    var box := PickBuilt(shown, mailboxes, thread, to, i);
    hide MoveMutations, MovePatch, Patched, Inverse;
    NoEntries();
    RoleIs(mailboxes, shown);
    RoleIs(mailboxes, box);
    MoveMoves(shown, to, [], state);
  }

  // ---------------------------------------------------------------------
  // Which changes there are, and what the marks do
  // ---------------------------------------------------------------------

  /** The first mailbox of a role is another one than the one shown, and takes
      emails in. */
  ghost predicate Takes(mailboxes: seq<Mailbox>, role: Role, shown: Mailbox) {
    exists k :: 0 <= k < |mailboxes| && FirstAt(mailboxes, role, k)
      && mailboxes[k].id != shown.id && mailboxes[k].rights.mayAddItems
  }

  predicate FirstAt(mailboxes: seq<Mailbox>, role: Role, k: nat)
    requires k < |mailboxes|
  {
    mailboxes[k].role == Some(role) && forall j :: 0 <= j < k ==> mailboxes[j].role != Some(role)
  }

  /** When an action can run, by roles and rights alone. */
  ghost predicate Runs(action: Action, shown: Mailbox, mailboxes: seq<Mailbox>) {
    var bin := shown.role == Some(Trash) || shown.role == Some(Junk);
    match action
    case Archive => shown.rights.mayRemoveItems && !bin && Takes(mailboxes, ArchiveBox, shown)
    case Delete => shown.rights.mayRemoveItems && !bin && Takes(mailboxes, Trash, shown)
    case DeleteForever => shown.rights.mayRemoveItems && bin
    case Spam => shown.rights.mayRemoveItems && shown.role != Some(Junk) && Takes(mailboxes, Junk, shown)
    case NotSpam => shown.rights.mayRemoveItems && shown.role == Some(Junk) && Takes(mailboxes, Inbox, shown)
    case MarkRead => shown.rights.maySetSeen
    case MarkUnread => shown.rights.maySetSeen
    case Star => shown.rights.maySetKeywords
    case Unstar => shown.rights.maySetKeywords
    case Move => false
  }

  lemma {:induction false} FirstOfAt(mailboxes: seq<Mailbox>, role: Role, k: nat)
    ensures FirstOf(mailboxes, role).None? <==> forall j :: 0 <= j < |mailboxes| ==> mailboxes[j].role != Some(role)
    ensures k < |mailboxes| && FirstAt(mailboxes, role, k) ==> FirstOf(mailboxes, role) == Some(mailboxes[k])
    decreases |mailboxes|
  {
    if mailboxes != [] {
      var rest := mailboxes[1..];
      FirstOfAt(rest, role, if k > 0 then k - 1 else 0);
      assert forall j :: 1 <= j < |mailboxes| ==> mailboxes[j] == rest[j - 1];
      assert forall j :: 0 <= j < |rest| ==> rest[j] == mailboxes[j + 1];
    }
  }

  lemma {:induction false} FirstStands(mailboxes: seq<Mailbox>, role: Role) returns (k: nat)
    requires FirstOf(mailboxes, role).Some?
    ensures k < |mailboxes| && FirstAt(mailboxes, role, k)
    decreases |mailboxes|
  {
    if mailboxes[0].role == Some(role) {
      k := 0;
    } else {
      k := FirstStands(mailboxes[1..], role);
      k := k + 1;
    }
  }

  lemma RoleBoxTakes(mailboxes: seq<Mailbox>, role: Role, shown: Mailbox)
    ensures RoleBox(mailboxes, role, shown).Some? <==> Takes(mailboxes, role, shown)
  {
    if FirstOf(mailboxes, role).Some? {
      var k := FirstStands(mailboxes, role);
      FirstOfAt(mailboxes, role, k);
    }
    if Takes(mailboxes, role, shown) {
      var k :| 0 <= k < |mailboxes| && FirstAt(mailboxes, role, k)
        && mailboxes[k].id != shown.id && mailboxes[k].rights.mayAddItems;
      FirstOfAt(mailboxes, role, k);
    }
  }

  /** The emails an action changes: none where it cannot run; the newest where
      it marks unread or stars; and every one, in order, for any other. Delete
      forever destroys, and no other action does. */
  lemma ActionBuilds(action: Action, shown: Mailbox, mailboxes: seq<Mailbox>, thread: Thread)
    ensures var changes := ActionMutations(action, shown, OfferedActions(shown, mailboxes), thread);
      var ids := thread.memberIds;
      var changed := if !Runs(action, shown, mailboxes) || ids == [] then []
        else if action.MarkUnread? || action.Star? then [ids[|ids| - 1]] else ids;
      && |changes| == |changed|
      && forall i :: 0 <= i < |changes| ==>
        changes[i].id == changed[i] && (changes[i].Destroy? <==> action.DeleteForever?)
  {
    RoleBoxTakes(mailboxes, ArchiveBox, shown);
    RoleBoxTakes(mailboxes, Trash, shown);
    RoleBoxTakes(mailboxes, Junk, shown);
    RoleBoxTakes(mailboxes, Inbox, shown);
    hide RoleBox, Takes, Enterable, MovePatch, JunkPatch, Keyword;
  }

  /** A move the user picks moves every email, where the mailbox shown gives its
      emails up and the one picked is another, no Trash and no Junk, and takes
      them in; and none elsewhere. */
  lemma MoveBuilds(shown: Mailbox, mailboxes: seq<Mailbox>, thread: Thread, to: string)
    ensures var changes := MoveMutations(shown, OfferedActions(shown, mailboxes), thread, to);
      var runs := shown.rights.mayRemoveItems && to != shown.id
        && exists box :: box in mailboxes && box.id == to && box.rights.mayAddItems
             && box.role != Some(Trash) && box.role != Some(Junk);
      && |changes| == (if runs then |thread.memberIds| else 0)
      && forall i :: 0 <= i < |changes| ==> changes[i].id == thread.memberIds[i]
  {
    EnterableIs(mailboxes, shown, to);
    hide Enterable, RoleBox, MovePatch;
  }

  /** The keywords a change leaves an email with. */
  function Marked(action: Action, maySetKeywords: bool, keywords: set<string>): set<string> {
    match action
    case MarkRead => keywords + {"$seen"}
    case MarkUnread => keywords - {"$seen"}
    case Star => keywords + {"$flagged"}
    case Unstar => keywords - {"$flagged"}
    case Spam => if maySetKeywords then keywords + {"$junk"} - {"$notjunk"} else keywords
    case NotSpam => if maySetKeywords then keywords + {"$notjunk"} - {"$junk"} else keywords
    case _ => keywords
  }

  lemma MarkSets(state: State, key: string, value: bool)
    requires key != ""
    ensures Names(Keyword(key, value))
    ensures Patched(state, Keyword(key, value)) == Set(state, Target(Keywords, key), value)
  {
    KeywordEntry(key, value);
    hide TargetOf, PathOf;
    assert Keyword(key, value)[1..] == [];
  }

  lemma {:induction false} PatchedThen(state: State, first: Patch, second: Patch)
    requires Names(first) && Names(second)
    ensures Names(first + second) && Patched(state, first + second) == Patched(Patched(state, first), second)
    decreases |first|
  {
    if first == [] {
      Sequences.Empty(second);
    } else {
      Sequences.Tail(first, second);
      PatchedThen(Set(state, TargetOf(first[0].path).value, first[0].value), first[1..], second);
    }
  }

  lemma JunkSets(state: State, offered: Offered, junk: bool)
    ensures Names(JunkPatch(offered, junk))
    ensures Patched(state, JunkPatch(offered, junk)).mailboxIds == state.mailboxIds
    ensures Patched(state, JunkPatch(offered, junk)).keywords ==
      if !offered.junkKeywords then state.keywords
      else if junk then state.keywords + {"$junk"} - {"$notjunk"}
      else state.keywords - {"$junk"} + {"$notjunk"}
  {
    if offered.junkKeywords {
      MarkNames();
      MarkSets(state, JUNK, junk);
      MarkSets(Set(state, Target(Keywords, JUNK), junk), NOT_JUNK, !junk);
      hide Keyword;
      PatchedThen(state, Keyword(JUNK, junk), Keyword(NOT_JUNK, !junk));
    }
  }

  lemma MoveSets(state: State, shown: Mailbox, to: string, keywords: Patch)
    requires shown.id != "" && to != "" && Names(keywords)
    ensures Names(MovePatch(shown, to, keywords))
    ensures Patched(state, MovePatch(shown, to, keywords))
      == Patched(Set(Set(state, Target(MailboxIds, shown.id), false), Target(MailboxIds, to), true), keywords)
  {
    MoveParts(shown, to, keywords);
    hide TargetOf, PathOf, MovePatch;
    var patch := MovePatch(shown, to, keywords);
    assert Names(patch[1..]);
    assert Patched(state, patch) == Patched(Set(state, Target(MailboxIds, shown.id), false), patch[1..]);
  }

  /** Laid over an email, a change sets and clears the keywords of its action and
      no other, and one that moves nothing leaves the mailboxes alone. */
  lemma ActionMarks(action: Action, shown: Mailbox, mailboxes: seq<Mailbox>, thread: Thread, i: nat, state: State)
    requires Proper(mailboxes) && shown in mailboxes && !action.DeleteForever?
    requires i < |ActionMutations(action, shown, OfferedActions(shown, mailboxes), thread)|
    ensures var change := ActionMutations(action, shown, OfferedActions(shown, mailboxes), thread)[i];
      && change.Change? && Names(change.patch)
      && Patched(state, change.patch).keywords == Marked(action, shown.rights.maySetKeywords, state.keywords)
      && (!Moves(action) ==> Patched(state, change.patch).mailboxIds == state.mailboxIds)
  {
    var offered := OfferedActions(shown, mailboxes);
    hide ActionMutations, Patched, Names, Keyword, Marked;
    if Moves(action) {
      MoveMarks(action, shown, mailboxes, thread, i, state);
    } else {
      var mark := MarkBuilt(action, shown, offered, thread, i);
      MarkNames();
      MarkSets(state, mark, action.MarkRead? || action.Star?);
      MarkedBy(action, state, shown.rights.maySetKeywords);
    }
  }

  /** A change of a mark writes its one keyword. */
  lemma MarkBuilt(action: Action, shown: Mailbox, offered: Offered, thread: Thread, i: nat) returns (mark: string)
    requires !Moves(action) && !action.DeleteForever? && i < |ActionMutations(action, shown, offered, thread)|
    ensures mark == (if action.MarkRead? || action.MarkUnread? then SEEN else FLAGGED) && !action.Move?
    ensures var change := ActionMutations(action, shown, offered, thread)[i];
      change.Change? && change.patch == Keyword(mark, action.MarkRead? || action.Star?)
  {
    mark := if action.MarkRead? || action.MarkUnread? then SEEN else FLAGGED;
    hide Keyword;
  }

  lemma MarkedBy(action: Action, state: State, maySetKeywords: bool)
    requires !Moves(action) && !action.DeleteForever? && !action.Move?
    ensures Set(state, Target(Keywords, if action.MarkRead? || action.MarkUnread? then SEEN else FLAGGED),
        action.MarkRead? || action.Star?)
      == state.(keywords := Marked(action, maySetKeywords, state.keywords))
  {
  }

  lemma MoveMarks(action: Action, shown: Mailbox, mailboxes: seq<Mailbox>, thread: Thread, i: nat, state: State)
    requires Proper(mailboxes) && shown in mailboxes && Moves(action)
    requires i < |ActionMutations(action, shown, OfferedActions(shown, mailboxes), thread)|
    ensures var change := ActionMutations(action, shown, OfferedActions(shown, mailboxes), thread)[i];
      && change.Change? && Names(change.patch)
      && Patched(state, change.patch).keywords == Marked(action, shown.rights.maySetKeywords, state.keywords)
  {
    var offered := OfferedActions(shown, mailboxes);
    var box := MoveBuilt(action, shown, mailboxes, thread, i);
    assert offered.junkKeywords == shown.rights.maySetKeywords;
    hide ActionMutations, MovePatch, OfferedActions, Patched, Names, Marked, Beside, Moves, Proper;
    RoleIs(mailboxes, shown);
    RoleIs(mailboxes, box);
    var moved := Set(Set(state, Target(MailboxIds, shown.id), false), Target(MailboxIds, box.id), true);
    BesideMarks(action, offered, moved);
    MoveSets(state, shown, box.id, Beside(action, offered));
  }

  lemma BesideMarks(action: Action, offered: Offered, state: State)
    requires Moves(action)
    ensures Names(Beside(action, offered))
    ensures Patched(state, Beside(action, offered)).keywords
      == Marked(action, offered.junkKeywords, state.keywords)
  {
    JunkSets(state, offered, action.Spam?);
    NothingBeside(state);
    hide JunkPatch, Patched, Names;
  }

  lemma NothingBeside(state: State)
    ensures Names([]) && Patched(state, []) == state
  {
  }
}

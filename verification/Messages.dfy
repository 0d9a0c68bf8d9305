// Messages and their single-level threads: what sends, edits and deletes keep, and how a
// channel's history and its threads divide its messages.
module Messages {
  import opened Options
  import opened Keyset

  // A stored row with its attachments; a deleted one stays as a tombstone.
  datatype Message = Message(
    channel: nat,
    author: nat,
    body: string,
    files: seq<nat>,
    root: Option<Id>,
    deleted: bool,
    version: nat)

  type Table = map<Id, Message>

  datatype Failure =
    | NoSuchThread
    | BodyRequired
    | BodyTooLong
    | Invisible
    | AlreadyDeleted
    | NotAuthor
    | NotDeletable
    | VersionConflict

  // The longest body allowed, and which characters are white space.
  datatype Rules = Rules(maxChars: nat, space: char -> bool)

  predicate IsBlank(s: string, rules: Rules) {
    forall i :: 0 <= i < |s| ==> rules.space(s[i])
  }

  datatype Validated = Valid(body: string) | Invalid(failure: Failure)

  // A blank body is kept as no text at all where attachments speak for it; any other is kept
  // as it is, untrimmed.
  function ValidateBody(raw: string, allowEmpty: bool, rules: Rules): Validated {
    if IsBlank(raw, rules) then if allowEmpty then Valid("") else Invalid(BodyRequired)
    else if |raw| > rules.maxChars then Invalid(BodyTooLong)
    else Valid(raw)
  }

  // The root a reply to a message is filed under: the message itself, or its own root.
  function RootFor(rows: Table, candidate: Id, channel: nat): Option<Id> {
    if candidate !in rows || rows[candidate].channel != channel then None
    else if rows[candidate].root.Some? then rows[candidate].root
    else Some(candidate)
  }

  class Store {
    var rows: Table
    const rules: Rules

    constructor (rules: Rules)
      ensures rows == map[] && this.rules == rules
    {
      rows := map[];
      this.rules := rules;
    }

    // A send, a reply when `replyTo` names a message of this channel.
    method Send(id: Id, channel: nat, author: nat, raw: string, files: seq<nat>, replyTo: Option<Id>)
      returns (failure: Option<Failure>)
      requires id !in rows
      modifies this`rows
      ensures (rows, failure) == Sent(old(rows), id, channel, author, raw, files, replyTo, rules)
    {
      var root: Option<Id> := None;
      if replyTo.Some? {
        root := RootFor(rows, replyTo.value, channel);
        if root.None? {
          return Some(NoSuchThread);
        }
      }
      var body := ValidateBody(raw, files != [], rules);
      if body.Invalid? {
        return Some(body.failure);
      }
      rows := rows[id := Message(channel, author, body.body, files, root, false, 0)];
      return None;
    }

    // Visibility, then state, then authorship, then the body, then the version.
    method Edit(id: Id, user: nat, raw: string, expected: nat, visible: bool) returns (failure: Option<Failure>)
      modifies this`rows
      ensures (rows, failure) == Edited(old(rows), id, user, raw, expected, visible, rules)
    {
      if id !in rows || !visible {
        return Some(Invisible);
      }
      if rows[id].deleted {
        return Some(AlreadyDeleted);
      }
      if rows[id].author != user {
        return Some(NotAuthor);
      }
      var body := ValidateBody(raw, false, rules);
      if body.Invalid? {
        return Some(body.failure);
      }
      if rows[id].version != expected {
        return Some(VersionConflict);
      }
      rows := rows[id := rows[id].(body := body.body, version := rows[id].version + 1)];
      return None;
    }

    // Deleting leaves a tombstone; deleting it again changes nothing.
    method Delete(id: Id, user: nat, admin: bool, visible: bool) returns (failure: Option<Failure>)
      modifies this`rows
      ensures (rows, failure) == Deleted(old(rows), id, user, admin, visible)
    {
      if id !in rows || !visible {
        return Some(Invisible);
      }
      if rows[id].author != user && !admin {
        return Some(NotDeletable);
      }
      if !rows[id].deleted {
        rows := rows[id := rows[id].(deleted := true, version := rows[id].version + 1)];
      }
      return None;
    }
  }

  function Sent(
    rows: Table, id: Id, channel: nat, author: nat, raw: string, files: seq<nat>, replyTo: Option<Id>, rules: Rules)
    : (Table, Option<Failure>)
  {
    var root := if replyTo.Some? then RootFor(rows, replyTo.value, channel) else None;
    var body := ValidateBody(raw, files != [], rules);
    if replyTo.Some? && root.None? then (rows, Some(NoSuchThread))
    else if body.Invalid? then (rows, Some(body.failure))
    else (rows[id := Message(channel, author, body.body, files, root, false, 0)], None)
  }

  function Edited(rows: Table, id: Id, user: nat, raw: string, expected: nat, visible: bool, rules: Rules)
    : (Table, Option<Failure>)
  {
    var body := ValidateBody(raw, false, rules);
    if id !in rows || !visible then (rows, Some(Invisible))
    else if rows[id].deleted then (rows, Some(AlreadyDeleted))
    else if rows[id].author != user then (rows, Some(NotAuthor))
    else if body.Invalid? then (rows, Some(body.failure))
    else if rows[id].version != expected then (rows, Some(VersionConflict))
    else (rows[id := rows[id].(body := body.body, version := rows[id].version + 1)], None)
  }

  function Deleted(rows: Table, id: Id, user: nat, admin: bool, visible: bool): (Table, Option<Failure>) {
    if id !in rows || !visible then (rows, Some(Invisible))
    else if rows[id].author != user && !admin then (rows, Some(NotDeletable))
    else if rows[id].deleted then (rows, None)
    else (rows[id := rows[id].(deleted := true, version := rows[id].version + 1)], None)
  }

  // --- what each operation asks for and does ----------------------------------------------------

  ghost predicate SaysSomething(raw: string, rules: Rules) {
    exists i :: 0 <= i < |raw| && !rules.space(raw[i])
  }

  // A send is taken exactly when the message it replies to, if any, is one of this channel, and
  // it either says something of allowed length or says nothing and brings attachments.
  lemma SendExactly(
    rows: Table, id: Id, channel: nat, author: nat, raw: string, files: seq<nat>, replyTo: Option<Id>, rules: Rules)
    ensures var (t, failure) := Sent(rows, id, channel, author, raw, files, replyTo, rules);
            var found := replyTo.Some? ==> replyTo.value in rows && rows[replyTo.value].channel == channel;
            && (failure == Some(NoSuchThread) <==> !found)
            && (failure == Some(BodyRequired) <==> found && !SaysSomething(raw, rules) && files == [])
            && (failure == Some(BodyTooLong) <==> found && SaysSomething(raw, rules) && |raw| > rules.maxChars)
            && (failure.None? <==>
                  found && if SaysSomething(raw, rules) then |raw| <= rules.maxChars else files != [])
            && (failure.Some? ==> t == rows)
  {
    assert SaysSomething(raw, rules) <==> !IsBlank(raw, rules);
  }

  // The row it adds: the text as it was sent, or none of a blank one; as a reply it is filed
  // under the root of what it replies to.
  lemma SendAddsOneRow(
    rows: Table, id: Id, channel: nat, author: nat, raw: string, files: seq<nat>, replyTo: Option<Id>, rules: Rules)
    requires Sent(rows, id, channel, author, raw, files, replyTo, rules).1.None?
    ensures var t := Sent(rows, id, channel, author, raw, files, replyTo, rules).0;
            && id in t && t == rows[id := t[id]]
            && t[id].channel == channel && t[id].author == author && t[id].files == files
            && t[id].version == 0 && !t[id].deleted
            && t[id].body == (if SaysSomething(raw, rules) then raw else "")
            && (replyTo.None? ==> t[id].root.None?)
            && (replyTo.Some? ==> replyTo.value in rows)
            && (replyTo.Some? ==>
                  t[id].root == if rows[replyTo.value].root.Some? then rows[replyTo.value].root else replyTo)
  {
    assert SaysSomething(raw, rules) <==> !IsBlank(raw, rules);
  }

  // An edit is taken exactly when its author makes it, of a message in sight that still stands
  // and whose version it knows; it then changes the text and counts the version up. Of one not
  // in sight nothing else is said, of a deleted one not whose it was.
  lemma EditExactly(rows: Table, id: Id, user: nat, raw: string, expected: nat, visible: bool, rules: Rules)
    ensures var (t, failure) := Edited(rows, id, user, raw, expected, visible, rules);
            var seen := visible && id in rows;
            var owned := seen && !rows[id].deleted && rows[id].author == user;
            var sound := SaysSomething(raw, rules) && |raw| <= rules.maxChars;
            && (failure == Some(Invisible) <==> !seen)
            && (failure == Some(AlreadyDeleted) <==> seen && rows[id].deleted)
            && (failure == Some(NotAuthor) <==> seen && !rows[id].deleted && rows[id].author != user)
            && (failure == Some(BodyRequired) <==> owned && !SaysSomething(raw, rules))
            && (failure == Some(BodyTooLong) <==> owned && SaysSomething(raw, rules) && |raw| > rules.maxChars)
            && (failure == Some(VersionConflict) <==> owned && sound && rows[id].version != expected)
            && (failure.None? <==> owned && sound && rows[id].version == expected)
            && (failure.None? ==> t == rows[id := rows[id].(body := raw, version := expected + 1)])
            && (failure.Some? ==> t == rows)
  {
    assert SaysSomething(raw, rules) <==> !IsBlank(raw, rules);
  }

  // A delete is taken exactly when the author or an admin makes it, of a message in sight. It
  // leaves a tombstone that still holds the text, and a repeat finds that and changes nothing.
  lemma DeleteExactly(rows: Table, id: Id, user: nat, admin: bool, visible: bool, again: nat, other: bool)
    ensures var (t, failure) := Deleted(rows, id, user, admin, visible);
            && (failure == Some(Invisible) <==> !(visible && id in rows))
            && (failure == Some(NotDeletable) <==> visible && id in rows && rows[id].author != user && !admin)
            && (failure.None? <==> visible && id in rows && (rows[id].author == user || admin))
            && (failure.Some? ==> t == rows)
            && (failure.None? ==>
                  && id in t && t == rows[id := t[id]] && t[id].deleted
                  && (rows[id].deleted ==> t == rows)
                  && (!rows[id].deleted ==> t[id].version == rows[id].version + 1)
                  && t[id].body == rows[id].body && t[id].files == rows[id].files && t[id].author == rows[id].author
                  && t[id].channel == rows[id].channel && t[id].root == rows[id].root
                  && Deleted(t, id, again, other, visible).0 == t)
  {
  }

  // --- runs -----------------------------------------------------------------------------

  datatype Event =
    | Send(id: Id, channel: nat, author: nat, raw: string, files: seq<nat>, replyTo: Option<Id>)
    | Edit(id: Id, user: nat, raw: string, expected: nat, visible: bool)
    | Delete(id: Id, user: nat, admin: bool, visible: bool)

  function Next(rows: Table, e: Event, rules: Rules): Table {
    match e
    case Send(id, channel, author, raw, files, replyTo) => Sent(rows, id, channel, author, raw, files, replyTo, rules).0
    case Edit(id, user, raw, expected, visible) => Edited(rows, id, user, raw, expected, visible, rules).0
    case Delete(id, user, admin, visible) => Deleted(rows, id, user, admin, visible).0
  }

  // Tables that follow one another, each by one operation; a sent id is a new one.
  ghost predicate IsRun(tables: seq<Table>, events: seq<Event>, rules: Rules) {
    && |tables| == |events| + 1 && tables[0] == map[]
    && forall i :: 0 <= i < |events| ==>
         tables[i + 1] == Next(tables[i], events[i], rules) && (events[i].Send? ==> events[i].id !in tables[i])
  }

  // Every reply's root is a top-level message of the same channel.
  ghost predicate SingleLevel(rows: Table) {
    forall id :: id in rows && rows[id].root.Some? ==>
      && rows[id].root.value in rows
      && rows[rows[id].root.value].root.None?
      && rows[rows[id].root.value].channel == rows[id].channel
  }

  // No operation moves a message to another channel or thread, or takes its row away.
  ghost predicate Extends(rows: Table, rows': Table) {
    forall id :: id in rows ==> id in rows' && rows'[id].channel == rows[id].channel && rows'[id].root == rows[id].root
  }

  lemma NewRowKeepsThreads(rows: Table, id: Id, m: Message)
    requires SingleLevel(rows) && id !in rows
    requires m.root.Some? ==> m.root.value in rows && rows[m.root.value].root.None? && rows[m.root.value].channel == m.channel
    ensures SingleLevel(rows[id := m]) && Extends(rows, rows[id := m])
  {
  }

  lemma ChangedRowKeepsThreads(rows: Table, id: Id, m: Message)
    requires SingleLevel(rows) && id in rows && m.root == rows[id].root && m.channel == rows[id].channel
    ensures SingleLevel(rows[id := m]) && Extends(rows, rows[id := m])
  {
  }

  lemma StepKeepsThreads(rows: Table, e: Event, rules: Rules)
    requires SingleLevel(rows) && (e.Send? ==> e.id !in rows)
    ensures SingleLevel(Next(rows, e, rules)) && Extends(rows, Next(rows, e, rules))
  {
    var t := Next(rows, e, rules);
    if t != rows {
      if e.Send? {
        NewRowKeepsThreads(rows, e.id, t[e.id]);
      } else {
        ChangedRowKeepsThreads(rows, e.id, t[e.id]);
      }
    }
  }

  lemma {:induction false} RunsKeepThreads(tables: seq<Table>, events: seq<Event>, rules: Rules, j: nat)
    requires IsRun(tables, events, rules) && j <= |events|
    ensures SingleLevel(tables[j])
    decreases j
  {
    if j > 0 {
      RunsKeepThreads(tables, events, rules, j - 1);
      StepKeepsThreads(tables[j - 1], events[j - 1], rules);
    }
  }

  // What is stored says something: a body of allowed length that is not blank, or no text and
  // the attachments that speak for it.
  ghost predicate WellSaid(rows: Table, rules: Rules) {
    forall id :: id in rows ==>
      || (!IsBlank(rows[id].body, rules) && |rows[id].body| <= rules.maxChars)
      || (rows[id].body == "" && rows[id].files != [])
  }

  lemma {:induction false} RunsKeepBodies(tables: seq<Table>, events: seq<Event>, rules: Rules, j: nat)
    requires IsRun(tables, events, rules) && j <= |events|
    ensures WellSaid(tables[j], rules)
    decreases j
  {
    if j > 0 {
      RunsKeepBodies(tables, events, rules, j - 1);
    }
  }

  lemma {:induction false} RunsExtend(tables: seq<Table>, events: seq<Event>, rules: Rules, i: nat, j: nat)
    requires IsRun(tables, events, rules) && i <= j <= |events|
    ensures Extends(tables[i], tables[j])
    decreases j
  {
    if i < j {
      RunsExtend(tables, events, rules, i, j - 1);
      RunsKeepThreads(tables, events, rules, j - 1);
      StepKeepsThreads(tables[j - 1], events[j - 1], rules);
    }
  }

  // --- what a version tells, and what a delete leaves --------------------------------------------

  // A row as a later table has it: who wrote it, where, and with what never changes, and the
  // same version is the same row.
  ghost predicate Ages(a: Message, b: Message) {
    && a.channel == b.channel && a.author == b.author && a.files == b.files && a.root == b.root
    && a.version <= b.version && (a.version == b.version ==> a == b)
    && (a.deleted ==> a == b)
  }

  lemma {:induction false} RowsAge(tables: seq<Table>, events: seq<Event>, rules: Rules, i: nat, j: nat, id: Id)
    requires IsRun(tables, events, rules) && i <= j <= |events| && id in tables[i]
    ensures id in tables[j] && Ages(tables[i][id], tables[j][id])
    decreases j
  {
    if i < j {
      RowsAge(tables, events, rules, i, j - 1, id);
    }
  }

  // How often a row has changed.
  ghost function Changes(tables: seq<Table>, id: Id, j: nat): nat
    requires j < |tables|
  {
    if j == 0 then 0
    else if id in tables[j - 1] && id in tables[j] && tables[j - 1][id] != tables[j][id] then Changes(tables, id, j - 1) + 1
    else Changes(tables, id, j - 1)
  }

  // The version counts the changes, an edit that leaves the text as it was among them.
  lemma {:induction false} VersionCountsChanges(
    tables: seq<Table>, events: seq<Event>, rules: Rules, j: nat, id: Id)
    requires IsRun(tables, events, rules) && j <= |events|
    ensures Changes(tables, id, j) == if id in tables[j] then tables[j][id].version else 0
    decreases j
  {
    if j > 0 {
      VersionCountsChanges(tables, events, rules, j - 1, id);
    }
  }

  // A delete the rules allow: of a message in sight, by its author or an admin.
  ghost predicate Deletes(rows: Table, e: Event, id: Id) {
    e.Delete? && e.id == id && e.visible && id in rows && (rows[id].author == e.user || e.admin)
  }

  // In every run the tombstones are exactly what such deletes have left.
  lemma {:induction false} TombstonesAreWhatDeletesLeave(
    tables: seq<Table>, events: seq<Event>, rules: Rules, j: nat, id: Id)
    requires IsRun(tables, events, rules) && j <= |events|
    ensures id in tables[j] && tables[j][id].deleted <==> exists i :: 0 <= i < j && Deletes(tables[i], events[i], id)
    decreases j
  {
    if j > 0 {
      TombstonesAreWhatDeletesLeave(tables, events, rules, j - 1, id);
      if id in tables[j] && tables[j][id].deleted && !(id in tables[j - 1] && tables[j - 1][id].deleted) {
        assert Deletes(tables[j - 1], events[j - 1], id);
      }
      forall i | 0 <= i < j && Deletes(tables[i], events[i], id)
        ensures id in tables[j] && tables[j][id].deleted
      {
        RowsAge(tables, events, rules, i + 1, j, id);
      }
    }
  }

  // --- history and replies ------------------------------------------------------------------

  ghost function InChannel(rows: Table, channel: nat): set<Id> {
    set id | id in rows && rows[id].channel == channel
  }

  // The rows of a channel's history: top-level messages, tombstones included.
  ghost function History(rows: Table, channel: nat): set<Id> {
    set id | id in rows && rows[id].channel == channel && rows[id].root.None?
  }

  ghost function Replies(rows: Table, root: Id): set<Id> {
    set id | id in rows && rows[id].root == Some(root)
  }

  // In every reachable table a message is in its channel's history or in the replies of
  // exactly one root of that history, tombstones included, and nothing else is.
  lemma HistoryAndThreadsPartition(tables: seq<Table>, events: seq<Event>, rules: Rules, j: nat, channel: nat, id: Id)
    requires IsRun(tables, events, rules) && j <= |events|
    ensures var rows := tables[j];
            && (id in InChannel(rows, channel) <==>
                  id in History(rows, channel) || exists root :: root in History(rows, channel) && id in Replies(rows, root))
            && (id in History(rows, channel) ==> forall root :: id !in Replies(rows, root))
            && (forall a, b :: id in Replies(rows, a) && id in Replies(rows, b) ==> a == b)
  {
    RunsKeepThreads(tables, events, rules, j);
    var rows := tables[j];
    if id in InChannel(rows, channel) && rows[id].root.Some? {
      assert rows[id].root.value in History(rows, channel) && id in Replies(rows, rows[id].root.value);
    }
  }

  // A reply to a reply is filed under the same root, tombstoned or not; a message of another
  // channel and no message at all are refused alike.
  lemma RepliesAreFiledUnderTheRoot(
    tables: seq<Table>, events: seq<Event>, rules: Rules, j: nat, candidate: Id, channel: nat)
    requires IsRun(tables, events, rules) && j <= |events|
    ensures var rows := tables[j];
            var root := RootFor(rows, candidate, channel);
            && (root.Some? <==> candidate in InChannel(rows, channel))
            && (root.Some? ==> root.value in History(rows, channel)
                               && (candidate == root.value || candidate in Replies(rows, root.value))
                               && RootFor(rows, root.value, channel) == root)
  {
    RunsKeepThreads(tables, events, rules, j);
  }

  // --- paging a channel and a thread ---------------------------------------------------------

  // The tables a walk's pages were asked of, in time.
  ghost predicate Sampled(tables: seq<Table>, at: seq<nat>) {
    && (forall i :: 0 <= i < |at| ==> at[i] < |tables|)
    && (forall i, j :: 0 <= i < j < |at| ==> at[i] <= at[j])
  }

  ghost function HistoriesAt(tables: seq<Table>, at: seq<nat>, channel: nat): seq<set<Id>>
    requires Sampled(tables, at)
  {
    seq(|at|, i requires 0 <= i < |at| => History(tables[at[i]], channel))
  }

  ghost function RepliesAt(tables: seq<Table>, at: seq<nat>, root: Id): seq<set<Id>>
    requires Sampled(tables, at)
  {
    seq(|at|, i requires 0 <= i < |at| => Replies(tables[at[i]], root))
  }

  lemma HistoryStays(tables: seq<Table>, events: seq<Event>, rules: Rules, at: seq<nat>, channel: nat)
    requires IsRun(tables, events, rules) && Sampled(tables, at) && at != []
    ensures forall id :: id in History(tables[at[0]], channel) ==> Throughout(HistoriesAt(tables, at, channel), id)
  {
    forall id, i | id in History(tables[at[0]], channel) && 0 <= i < |at|
      ensures id in History(tables[at[i]], channel)
    {
      RunsExtend(tables, events, rules, at[0], at[i]);
    }
  }

  lemma RepliesStay(tables: seq<Table>, events: seq<Event>, rules: Rules, at: seq<nat>, root: Id)
    requires IsRun(tables, events, rules) && Sampled(tables, at) && at != []
    ensures forall id :: id in Replies(tables[at[0]], root) ==> Throughout(RepliesAt(tables, at, root), id)
  {
    forall id, i | id in Replies(tables[at[0]], root) && 0 <= i < |at|
      ensures id in Replies(tables[at[i]], root)
    {
      RunsExtend(tables, events, rules, at[0], at[i]);
    }
  }

  // Paging back through a channel while others send, edit and delete gives every message
  // its history held when the paging began, newest first and once each.
  lemma HistoryPagesAreExact(
    tables: seq<Table>, events: seq<Event>, rules: Rules, at: seq<nat>, channel: nat,
    pages: seq<Page<Id>>, limit: nat, parse: Parser)
    requires IsRun(tables, events, rules) && Sampled(tables, at) && limit >= 1 && Reads(parse)
    requires IsWalk(HistoriesAt(tables, at, channel), pages, limit, parse)
    requires pages != [] && pages[|pages| - 1].next.None?
    ensures Descends(Items(pages))
    ensures forall id :: id in History(tables[at[0]], channel) ==> id in Items(pages)
    ensures forall i, id :: 0 <= i < |pages| && id in pages[i].items ==> id in History(tables[at[i]], channel)
  {
    WalkIsExact(HistoriesAt(tables, at, channel), pages, limit, parse);
    HistoryStays(tables, events, rules, at, channel);
  }

  // The same for the replies of a thread.
  lemma ReplyPagesAreExact(
    tables: seq<Table>, events: seq<Event>, rules: Rules, at: seq<nat>, root: Id,
    pages: seq<Page<Id>>, limit: nat, parse: Parser)
    requires IsRun(tables, events, rules) && Sampled(tables, at) && limit >= 1 && Reads(parse)
    requires IsWalk(RepliesAt(tables, at, root), pages, limit, parse)
    requires pages != [] && pages[|pages| - 1].next.None?
    ensures Descends(Items(pages))
    ensures forall id :: id in Replies(tables[at[0]], root) ==> id in Items(pages)
    ensures forall i, id :: 0 <= i < |pages| && id in pages[i].items ==> id in Replies(tables[at[i]], root)
  {
    WalkIsExact(RepliesAt(tables, at, root), pages, limit, parse);
    RepliesStay(tables, events, rules, at, root);
  }
}

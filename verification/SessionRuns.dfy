// What every table of refresh tokens keeps, whatever sign-ins, refreshes, replays, logouts
// and removals happen, each taken as one serialised operation.
module SessionRuns {
  import opened Options
  import opened Sessions

  datatype Event =
    | SignIn(id: Id, userId: nat, workspaceId: nat, token: Token, now: int, lifetime: int)
    | Refresh(token: Token, now: int, id: Id, membership: Option<nat>, newToken: Token, lifetime: int)
    | LogOut(token: Token, now: int)
    | RemoveFromWorkspace(userId: nat, workspaceId: nat, now: int)

  // New ids and new tokens are unlike any in the table.
  ghost predicate Fresh(rows: Rows, e: Event) {
    match e
    case SignIn(id, _, _, token, _, _) => id !in rows && forall other :: other in rows ==> rows[other].token != token
    case Refresh(_, _, id, _, token, _) => id !in rows && forall other :: other in rows ==> rows[other].token != token
    case LogOut(_, _) => true
    case RemoveFromWorkspace(_, _, _) => true
  }

  ghost function Next(rows: Rows, e: Event): Rows {
    match e
    case SignIn(id, userId, workspaceId, token, now, lifetime) =>
      rows[id := Row(userId, workspaceId, token, now + lifetime, None, None)]
    case Refresh(token, now, id, membership, newToken, lifetime) =>
      Refreshed(rows, token, now, id, membership, newToken, lifetime).0
    case LogOut(token, now) => LoggedOut(rows, token, now)
    case RemoveFromWorkspace(userId, workspaceId, now) => RevokedIn(rows, LiveIn(rows, userId, workspaceId), now)
  }

  // --- chains ------------------------------------------------------------------------

  ghost predicate WellChained(rows: Rows) {
    && UniqueTokens(rows)
    && (forall a :: a in rows && rows[a].rotatedTo.Some? ==> rows[a].rotatedTo.value in rows && rows[a].revokedAt.Some?)
    && (forall a, b :: a in rows && b in rows && rows[a].rotatedTo.Some? && rows[a].rotatedTo == rows[b].rotatedTo ==> a == b)
    && (forall a, n: nat :: a in rows && n > 0 ==> !Leads(rows, a, a, n))
  }

  // Only the links decide where a chain leads.
  lemma {:induction false} LinksDecide(rows: Rows, rows': Rows, from: Id, to: Id, n: nat)
    requires rows.Keys == rows'.Keys && forall id :: id in rows ==> rows[id].rotatedTo == rows'[id].rotatedTo
    ensures Leads(rows, from, to, n) == Leads(rows', from, to, n)
    decreases n
  {
    if n > 0 && from in rows && rows[from].rotatedTo.Some? {
      LinksDecide(rows, rows', rows[from].rotatedTo.value, to, n - 1);
    }
  }

  // A table with one new row at the end of at most one chain.
  ghost predicate Extends(rows: Rows, rows': Rows, id: Id) {
    && id !in rows && rows'.Keys == rows.Keys + {id} && rows'[id].rotatedTo.None?
    && forall other :: other in rows ==>
         || rows'[other].rotatedTo == rows[other].rotatedTo
         || (rows[other].rotatedTo.None? && rows'[other].rotatedTo == Some(id))
  }

  // Chains to an old row are the old chains.
  lemma {:induction false} OldChainsStay(rows: Rows, rows': Rows, id: Id, from: Id, to: Id, n: nat)
    requires Extends(rows, rows', id) && to != id
    ensures Leads(rows, from, to, n) == Leads(rows', from, to, n)
    decreases n
  {
    if n > 0 {
      if from in rows && rows[from].rotatedTo.Some? {
        OldChainsStay(rows, rows', id, rows[from].rotatedTo.value, to, n - 1);
      } else if from in rows && rows'[from].rotatedTo.Some? {
        assert n > 1 ==> !Leads(rows', id, to, n - 1);
      }
    }
  }

  // A chain to a row that no stored row links to starts there or passes its predecessor.
  lemma {:induction false} LastLink(rows: Rows, from: Id, to: Id, n: nat) returns (before: Id)
    requires Leads(rows, from, to, n) && n > 0
    ensures before in rows && rows[before].rotatedTo == Some(to) && Leads(rows, from, before, n - 1)
    decreases n
  {
    if n == 1 {
      before := from;
    } else {
      before := LastLink(rows, rows[from].rotatedTo.value, to, n - 1);
    }
  }

  lemma RevokingKeepsChains(rows: Rows, ids: set<Id>, now: int)
    requires WellChained(rows)
    ensures WellChained(RevokedIn(rows, ids, now))
    ensures forall a, b :: Reaches(RevokedIn(rows, ids, now), a, b) == Reaches(rows, a, b)
  {
    var rows' := RevokedIn(rows, ids, now);
    forall a, b, n: nat
      ensures Leads(rows, a, b, n) == Leads(rows', a, b, n)
    {
      LinksDecide(rows, rows', a, b, n);
    }
  }

  lemma SignInKeepsChains(rows: Rows, e: Event)
    requires WellChained(rows) && e.SignIn? && Fresh(rows, e)
    ensures WellChained(Next(rows, e))
  {
    var rows' := Next(rows, e);
    forall a, n: nat | a in rows' && n > 0
      ensures !Leads(rows', a, a, n)
    {
      if a != e.id {
        OldChainsStay(rows, rows', e.id, a, a, n);
      }
    }
  }

  lemma RotatingExtends(rows: Rows, presented: Id, id: Id, workspaceId: nat, token: Token, now: int, lifetime: int)
    requires presented in rows && rows[presented].rotatedTo.None? && id !in rows
    ensures Extends(rows, Rotated(rows, presented, id, workspaceId, token, now, lifetime), id)
  {
  }

  lemma ExtendingMakesNoCircle(rows: Rows, rows': Rows, id: Id)
    requires WellChained(rows) && Extends(rows, rows', id)
    ensures forall a, n: nat :: a in rows' && n > 0 ==> !Leads(rows', a, a, n)
  {
    forall a, n: nat | a in rows' && n > 0
      ensures !Leads(rows', a, a, n)
    {
      if a != id {
        OldChainsStay(rows, rows', id, a, a, n);
      }
    }
  }

  lemma RotatingKeepsChains(rows: Rows, presented: Id, id: Id, workspaceId: nat, token: Token, now: int, lifetime: int)
    requires WellChained(rows) && presented in rows && rows[presented].rotatedTo.None?
    requires id !in rows && forall other :: other in rows ==> rows[other].token != token
    ensures WellChained(Rotated(rows, presented, id, workspaceId, token, now, lifetime))
    ensures Extends(rows, Rotated(rows, presented, id, workspaceId, token, now, lifetime), id)
  {
    RotatingExtends(rows, presented, id, workspaceId, token, now, lifetime);
    ExtendingMakesNoCircle(rows, Rotated(rows, presented, id, workspaceId, token, now, lifetime), id);
  }

  // Every operation keeps the chains: no circles, no two rows with one successor, every
  // rotated row revoked.
  lemma StepKeepsChains(rows: Rows, e: Event)
    requires WellChained(rows) && Fresh(rows, e)
    ensures WellChained(Next(rows, e))
  {
    match e
    case SignIn(_, _, _, _, _, _) => SignInKeepsChains(rows, e);
    case LogOut(token, now) =>
      if Holder(rows, token).Some? {
        RevokingKeepsChains(rows, {Holder(rows, token).value}, now);
      }
    case RemoveFromWorkspace(userId, workspaceId, now) =>
      RevokingKeepsChains(rows, LiveIn(rows, userId, workspaceId), now);
    case Refresh(token, now, id, membership, newToken, lifetime) =>
      var found := Holder(rows, token);
      if found.Some? {
        RevokingKeepsChains(rows, Descendants(rows, found.value), now);
        if Judged(found.value, rows[found.value], now).Spent? && membership.Some? {
          RotatingKeepsChains(rows, found.value, id, membership.value, newToken, now, lifetime);
        }
      }
  }

  // The tables that serialised operations can lead to, from none at all.
  ghost predicate CanFollow(rows: Rows, events: seq<Event>)
    decreases |events|
  {
    events == [] || (Fresh(rows, events[0]) && CanFollow(Next(rows, events[0]), events[1..]))
  }

  ghost function After(rows: Rows, events: seq<Event>): Rows
    decreases |events|
  {
    if events == [] then rows else After(Next(rows, events[0]), events[1..])
  }

  lemma {:induction false} RunsKeepChains(rows: Rows, events: seq<Event>)
    requires WellChained(rows) && CanFollow(rows, events)
    ensures WellChained(After(rows, events))
    decreases |events|
  {
    if events != [] {
      StepKeepsChains(rows, events[0]);
      RunsKeepChains(Next(rows, events[0]), events[1..]);
    }
  }

  // --- one live row a family -------------------------------------------------------------

  lemma {:induction false} ChainsFromOneRow(rows: Rows, root: Id, a: Id, b: Id, m: nat, n: nat)
    requires Leads(rows, root, a, m) && Leads(rows, root, b, n) && m <= n
    ensures Leads(rows, a, b, n - m)
    decreases m
  {
    if m > 0 {
      ChainsFromOneRow(rows, rows[root].rotatedTo.value, a, b, m - 1, n - 1);
    }
  }

  // In every reachable table a family has at most one live row, and it is the last.
  lemma OneLiveRow(events: seq<Event>, root: Id, a: Id, b: Id)
    requires CanFollow(map[], events)
    requires var rows := After(map[], events);
             && a in rows && b in rows && rows[a].revokedAt.None? && rows[b].revokedAt.None?
             && Reaches(rows, root, a) && Reaches(rows, root, b)
    ensures a == b && After(map[], events)[a].rotatedTo.None?
  {
    var rows := After(map[], events);
    RunsKeepChains(map[], events);
    var m: nat :| Leads(rows, root, a, m);
    var n: nat :| Leads(rows, root, b, n);
    if m <= n {
      ChainsFromOneRow(rows, root, a, b, m, n);
    } else {
      ChainsFromOneRow(rows, root, b, a, n, m);
    }
  }

  // --- a replayed token costs its family for good ---------------------------------------

  // No row of the family that starts at `root` is live.
  ghost predicate FamilyDead(rows: Rows, root: Id) {
    forall id :: id in rows && Reaches(rows, root, id) ==> rows[id].revokedAt.Some?
  }

  // Presenting a token already exchanged leaves the whole family dead: what was issued
  // after it is revoked now, and what came before was revoked when it was rotated.
  lemma ReplayKillsFamily(rows: Rows, e: Event, spent: Id, root: Id)
    requires WellChained(rows) && e.Refresh?
    requires spent in rows && rows[spent].token == e.token && rows[spent].rotatedTo.Some?
    requires Reaches(rows, root, spent)
    ensures FamilyDead(Next(rows, e), root)
  {
    assert Holder(rows, e.token) == Some(spent);
    var ids := Descendants(rows, spent);
    var rows' := Next(rows, e);
    assert rows' == RevokedIn(rows, ids, e.now);
    RevokingKeepsChains(rows, ids, e.now);
    forall id | id in rows' && Reaches(rows', root, id)
      ensures rows'[id].revokedAt.Some?
    {
      var m: nat :| Leads(rows, root, spent, m);
      var n: nat :| Leads(rows, root, id, n);
      if m <= n {
        ChainsFromOneRow(rows, root, spent, id, m, n);
        assert id in ids;
      } else {
        ChainsFromOneRow(rows, root, id, spent, n, m);
        assert rows[id].rotatedTo.Some?;
      }
    }
  }

  // A rotation adds to a family only by rotating its live row.
  lemma RotationJoinsLiveFamily(
    rows: Rows, presented: Id, id: Id, workspaceId: nat, token: Token, now: int, lifetime: int, root: Id)
    requires WellChained(rows) && presented in rows && rows[presented].rotatedTo.None? && rows[presented].revokedAt.None?
    requires id !in rows && forall other :: other in rows ==> rows[other].token != token
    requires root in rows && FamilyDead(rows, root)
    ensures FamilyDead(Rotated(rows, presented, id, workspaceId, token, now, lifetime), root)
    ensures !Reaches(Rotated(rows, presented, id, workspaceId, token, now, lifetime), root, id)
  {
    var rows' := Rotated(rows, presented, id, workspaceId, token, now, lifetime);
    RotatingKeepsChains(rows, presented, id, workspaceId, token, now, lifetime);
    if Reaches(rows', root, id) {
      var n: nat :| Leads(rows', root, id, n);
      var before := LastLink(rows', root, id, n);
      assert before == presented;
      OldChainsStay(rows, rows', id, root, presented, n - 1);
    }
    forall other | other in rows' && Reaches(rows', root, other)
      ensures rows'[other].revokedAt.Some?
    {
      var n: nat :| Leads(rows', root, other, n);
      OldChainsStay(rows, rows', id, root, other, n);
    }
  }

  lemma DeadFamilyStaysDead(rows: Rows, e: Event, root: Id)
    requires WellChained(rows) && Fresh(rows, e) && root in rows && FamilyDead(rows, root)
    ensures root in Next(rows, e) && FamilyDead(Next(rows, e), root)
  {
    match e
    case SignIn(id, _, _, _, _, _) =>
      var rows' := Next(rows, e);
      forall other | other in rows' && Reaches(rows', root, other)
        ensures rows'[other].revokedAt.Some?
      {
        var n: nat :| Leads(rows', root, other, n);
        if other == id {
          var before := LastLink(rows', root, id, n);
        } else {
          OldChainsStay(rows, rows', id, root, other, n);
        }
      }
    case LogOut(token, now) =>
      if Holder(rows, token).Some? {
        RevokingKeepsChains(rows, {Holder(rows, token).value}, now);
      }
    case RemoveFromWorkspace(userId, workspaceId, now) =>
      RevokingKeepsChains(rows, LiveIn(rows, userId, workspaceId), now);
    case Refresh(token, now, id, membership, newToken, lifetime) =>
      var found := Holder(rows, token);
      if found.Some? {
        RevokingKeepsChains(rows, Descendants(rows, found.value), now);
        if Judged(found.value, rows[found.value], now).Spent? && membership.Some? {
          RotationJoinsLiveFamily(rows, found.value, id, membership.value, newToken, now, lifetime, root);
        }
      }
  }

  lemma {:induction false} DeadFamilyStaysDeadForever(rows: Rows, events: seq<Event>, root: Id)
    requires WellChained(rows) && CanFollow(rows, events) && root in rows && FamilyDead(rows, root)
    ensures FamilyDead(After(rows, events), root)
    decreases |events|
  {
    if events != [] {
      StepKeepsChains(rows, events[0]);
      DeadFamilyStaysDead(rows, events[0], root);
      DeadFamilyStaysDeadForever(Next(rows, events[0]), events[1..], root);
    }
  }

  // Once a spent token of a family has been presented, no row of that family, old or new,
  // is ever live or spendable again, whatever happens afterwards.
  lemma ReplayIsFinal(before: seq<Event>, replay: Event, later: seq<Event>, spent: Id, root: Id, id: Id, now: int)
    requires CanFollow(map[], before) && replay.Refresh?
    requires var rows := After(map[], before);
             && spent in rows && rows[spent].token == replay.token && rows[spent].rotatedTo.Some?
             && root in rows && Reaches(rows, root, spent)
             && Fresh(rows, replay) && CanFollow(Next(rows, replay), later)
    ensures var rows := After(Next(After(map[], before), replay), later);
            id in rows && Reaches(rows, root, id) ==>
              rows[id].revokedAt.Some? && !Spendable(rows[id], now) && Judged(id, rows[id], now).Refused?
  {
    var rows := After(map[], before);
    RunsKeepChains(map[], before);
    ReplayKillsFamily(rows, replay, spent, root);
    StepKeepsChains(rows, replay);
    DeadFamilyStaysDeadForever(Next(rows, replay), later, root);
  }

  // --- a token buys at most one successor ---------------------------------------------------

  lemma LinkStays(rows: Rows, e: Event, id: Id)
    requires WellChained(rows) && Fresh(rows, e) && id in rows && rows[id].rotatedTo.Some?
    ensures id in Next(rows, e) && Next(rows, e)[id].rotatedTo == rows[id].rotatedTo && Next(rows, e)[id].token == rows[id].token
  {
  }

  lemma {:induction false} ExchangedOnce(rows: Rows, events: seq<Event>, id: Id, last: Event)
    requires WellChained(rows) && CanFollow(rows, events) && id in rows && rows[id].rotatedTo.Some?
    requires last.Refresh? && last.token == rows[id].token
    ensures var rows' := After(rows, events);
            && id in rows' && rows'[id].rotatedTo == rows[id].rotatedTo
            && Refreshed(rows', last.token, last.now, last.id, last.membership, last.newToken, last.lifetime).1
               == Refused(ReuseDetected)
    decreases |events|
  {
    if events == [] {
      assert Holder(rows, last.token) == Some(id);
    } else {
      StepKeepsChains(rows, events[0]);
      LinkStays(rows, events[0], id);
      ExchangedOnce(Next(rows, events[0]), events[1..], id, last);
    }
  }

  // --- what each operation does to each row --------------------------------------------------

  // The answer to a token, in terms of its row alone.
  lemma JudgedExactly(id: Id, row: Row, now: int)
    ensures Judged(id, row, now) == Spent(id) <==> row.rotatedTo.None? && row.revokedAt.None? && now < row.expiresAt
    ensures Judged(id, row, now) == Refused(ReuseDetected) <==> row.rotatedTo.Some?
    ensures Judged(id, row, now) == Refused(TokenRevoked) <==> row.rotatedTo.None? && row.revokedAt.Some?
    ensures Judged(id, row, now) == Refused(TokenExpired)
            <==> row.rotatedTo.None? && row.revokedAt.None? && row.expiresAt <= now
  {
  }

  // A revocation marks a live row with its time, and leaves everything else of every row, the
  // time of an earlier revocation included.
  ghost predicate OnlyRevokes(rows: Rows, rows': Rows, id: Id, now: int)
    requires id in rows && id in rows'
  {
    rows'[id] == if rows[id].revokedAt.Some? then rows[id] else rows[id].(revokedAt := Some(now))
  }

  // A sign-in adds the one live row it is for.
  lemma SignInExactly(rows: Rows, e: Event)
    requires e.SignIn? && Fresh(rows, e)
    ensures var t := Next(rows, e);
            && t.Keys == rows.Keys + {e.id} && (forall id :: id in rows ==> t[id] == rows[id])
            && t[e.id].userId == e.userId && t[e.id].workspaceId == e.workspaceId && t[e.id].token == e.token
            && t[e.id].expiresAt == e.now + e.lifetime && t[e.id].rotatedTo.None? && t[e.id].revokedAt.None?
  {
  }

  // Logging out revokes the row of the token presented, and no other.
  lemma LogOutExactly(rows: Rows, e: Event, id: Id)
    requires UniqueTokens(rows) && e.LogOut? && id in rows
    ensures Next(rows, e).Keys == rows.Keys
    ensures if rows[id].token == e.token then OnlyRevokes(rows, Next(rows, e), id, e.now) else Next(rows, e)[id] == rows[id]
  {
  }

  // Removing a user from a workspace revokes that user's rows of that workspace, and no other.
  lemma RemovalExactly(rows: Rows, e: Event, id: Id)
    requires e.RemoveFromWorkspace? && id in rows
    ensures Next(rows, e).Keys == rows.Keys
    ensures if rows[id].userId == e.userId && rows[id].workspaceId == e.workspaceId
            then OnlyRevokes(rows, Next(rows, e), id, e.now) else Next(rows, e)[id] == rows[id]
  {
  }

  // A refresh by a token that is good buys its user a successor in the workspace asked for,
  // under the new token and for its lifetime, and changes no other row.
  lemma RefreshBuysASuccessor(rows: Rows, e: Event, presented: Id)
    requires WellChained(rows) && Fresh(rows, e) && e.Refresh? && e.membership.Some?
    requires presented in rows && rows[presented].token == e.token && Spendable(rows[presented], e.now)
    ensures var t := Next(rows, e);
            && t.Keys == rows.Keys + {e.id}
            && t[e.id].userId == rows[presented].userId && t[e.id].workspaceId == e.membership.value
            && t[e.id].token == e.newToken && t[e.id].expiresAt == e.now + e.lifetime
            && t[e.id].rotatedTo.None? && t[e.id].revokedAt.None?
            && t[presented] == rows[presented].(rotatedTo := Some(e.id), revokedAt := Some(e.now))
            && forall other :: other in rows && other != presented ==> t[other] == rows[other]
  {
    assert Holder(rows, e.token) == Some(presented);
  }

  // --- whose session it is, and until when ----------------------------------------------------

  // No operation changes whose a row is, where, under which token or until when, or takes a
  // revocation back.
  ghost predicate SameTerms(rows: Rows, rows': Rows) {
    forall id :: id in rows ==>
      && id in rows' && rows'[id].userId == rows[id].userId && rows'[id].workspaceId == rows[id].workspaceId
      && rows'[id].token == rows[id].token && rows'[id].expiresAt == rows[id].expiresAt
      && (rows[id].revokedAt.Some? ==> rows'[id].revokedAt.Some?)
  }

  lemma StepKeepsTerms(rows: Rows, e: Event)
    requires WellChained(rows) && Fresh(rows, e)
    ensures SameTerms(rows, Next(rows, e))
  {
  }

  lemma {:induction false} RunsKeepTerms(rows: Rows, events: seq<Event>)
    requires WellChained(rows) && CanFollow(rows, events)
    ensures SameTerms(rows, After(rows, events)) && WellChained(After(rows, events))
    decreases |events|
  {
    if events != [] {
      StepKeepsChains(rows, events[0]);
      StepKeepsTerms(rows, events[0]);
      RunsKeepTerms(Next(rows, events[0]), events[1..]);
    }
  }

  // A successor belongs to its predecessor's user.
  ghost predicate OneUser(rows: Rows) {
    forall a :: a in rows && rows[a].rotatedTo.Some? ==>
      rows[a].rotatedTo.value in rows && rows[rows[a].rotatedTo.value].userId == rows[a].userId
  }

  lemma RotatingKeepsUser(rows: Rows, presented: Id, id: Id, workspaceId: nat, token: Token, now: int, lifetime: int)
    requires OneUser(rows) && presented in rows && rows[presented].rotatedTo.None? && id !in rows
    ensures OneUser(Rotated(rows, presented, id, workspaceId, token, now, lifetime))
  {
  }

  lemma RevokingKeepsUser(rows: Rows, ids: set<Id>, now: int)
    requires OneUser(rows)
    ensures OneUser(RevokedIn(rows, ids, now))
  {
  }

  lemma StepKeepsUser(rows: Rows, e: Event)
    requires WellChained(rows) && OneUser(rows) && Fresh(rows, e)
    ensures OneUser(Next(rows, e))
  {
    match e
    case SignIn(_, _, _, _, _, _) =>
    case LogOut(token, now) =>
      if Holder(rows, token).Some? {
        RevokingKeepsUser(rows, {Holder(rows, token).value}, now);
      }
    case RemoveFromWorkspace(userId, workspaceId, now) => RevokingKeepsUser(rows, LiveIn(rows, userId, workspaceId), now);
    case Refresh(token, now, id, membership, newToken, lifetime) =>
      var found := Holder(rows, token);
      if found.Some? {
        RevokingKeepsUser(rows, Descendants(rows, found.value), now);
        if Judged(found.value, rows[found.value], now).Spent? && membership.Some? {
          RotatingKeepsUser(rows, found.value, id, membership.value, newToken, now, lifetime);
        }
      }
  }

  lemma {:induction false} RunsKeepUser(rows: Rows, events: seq<Event>)
    requires WellChained(rows) && OneUser(rows) && CanFollow(rows, events)
    ensures OneUser(After(rows, events))
    decreases |events|
  {
    if events != [] {
      StepKeepsChains(rows, events[0]);
      StepKeepsUser(rows, events[0]);
      RunsKeepUser(Next(rows, events[0]), events[1..]);
    }
  }

  lemma {:induction false} ChainHasOneUser(rows: Rows, from: Id, to: Id, n: nat)
    requires OneUser(rows) && from in rows && to in rows && Leads(rows, from, to, n)
    ensures rows[from].userId == rows[to].userId
    decreases n
  {
    if n > 0 {
      ChainHasOneUser(rows, rows[from].rotatedTo.value, to, n - 1);
    }
  }

  // In every reachable table all rows of a family are one user's.
  lemma FamilyHasOneUser(events: seq<Event>, a: Id, b: Id)
    requires CanFollow(map[], events)
    requires a in After(map[], events) && b in After(map[], events) && Reaches(After(map[], events), a, b)
    ensures After(map[], events)[a].userId == After(map[], events)[b].userId
  {
    RunsKeepUser(map[], events);
    var n: nat :| Leads(After(map[], events), a, b, n);
    ChainHasOneUser(After(map[], events), a, b, n);
  }

  // The event adds this row, under this token and until this time.
  ghost predicate Issues(rows: Rows, e: Event, id: Id, token: Token, until: int) {
    && id !in rows
    && match e
       case SignIn(newId, _, _, newToken, now, lifetime) => id == newId && token == newToken && until == now + lifetime
       case Refresh(presented, now, newId, membership, newToken, lifetime) =>
         && id == newId && token == newToken && until == now + lifetime && membership.Some?
         && exists old_ :: old_ in rows && rows[old_].token == presented && Spendable(rows[old_], now)
       case _ => false
  }

  lemma IssuedIs(rows: Rows, e: Event, id: Id, token: Token, until: int)
    requires WellChained(rows) && Fresh(rows, e) && Issues(rows, e, id, token, until)
    ensures id in Next(rows, e) && Next(rows, e)[id].token == token && Next(rows, e)[id].expiresAt == until
    ensures Next(rows, e)[id].revokedAt.None?
  {
    if e.Refresh? {
      var presented :| presented in rows && rows[presented].token == e.token && Spendable(rows[presented], e.now);
      RefreshBuysASuccessor(rows, e, presented);
    }
  }

  // A token once issued is accepted exactly until its lifetime is over, as long as nothing has
  // revoked it, whatever else has happened.
  lemma AcceptedUntilItExpires(before: seq<Event>, issue: Event, later: seq<Event>, id: Id, token: Token, until: int, use: Event)
    requires CanFollow(map[], before) && Fresh(After(map[], before), issue)
    requires Issues(After(map[], before), issue, id, token, until)
    requires CanFollow(Next(After(map[], before), issue), later)
    requires use.Refresh? && use.token == token
    ensures var rows := After(Next(After(map[], before), issue), later);
            && id in rows
            && (rows[id].revokedAt.None? ==>
                  Refreshed(rows, token, use.now, use.id, use.membership, use.newToken, use.lifetime).1
                  == if use.now < until then Spent(id) else Refused(TokenExpired))
  {
    var rows := After(map[], before);
    RunsKeepChains(map[], before);
    IssuedIs(rows, issue, id, token, until);
    StepKeepsChains(rows, issue);
    RunsKeepTerms(Next(rows, issue), later);
    assert Holder(After(Next(rows, issue), later), token) == Some(id);
  }
}

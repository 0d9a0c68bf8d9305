// Refresh-token sessions: rows linked by `rotated_to`, spent by presenting their token,
// and revoked in chains when a spent token turns up again.
module Sessions {
  import opened Options

  type Id = nat
  type Token = nat

  // A stored refresh token. The hash is taken as injective, so a row holds the token itself.
  datatype Row = Row(
    userId: nat,
    workspaceId: nat,
    token: Token,
    expiresAt: int,
    rotatedTo: Option<Id>,
    revokedAt: Option<int>)

  type Rows = map<Id, Row>

  datatype RefreshError = UnknownToken | ReuseDetected | TokenRevoked | TokenExpired

  datatype Spending = Spent(id: Id) | Refused(error: RefreshError)

  // --- chains ------------------------------------------------------------------------

  // Following `rotated_to` n times from one row leads to the other.
  ghost predicate Leads(rows: Rows, from: Id, to: Id, n: nat)
    decreases n
  {
    if n == 0 then from == to
    else from in rows && rows[from].rotatedTo.Some? && Leads(rows, rows[from].rotatedTo.value, to, n - 1)
  }

  // The second row is the first or was issued after it in the same family.
  ghost predicate Reaches(rows: Rows, from: Id, to: Id) {
    exists n: nat :: Leads(rows, from, to, n)
  }

  function Revoked(row: Row, now: int): Row {
    if row.revokedAt.None? then row.(revokedAt := Some(now)) else row
  }

  function RevokedIn(rows: Rows, ids: set<Id>, now: int): Rows {
    map id | id in rows :: if id in ids then Revoked(rows[id], now) else rows[id]
  }

  // The rows reached from a row, that row included.
  ghost function Descendants(rows: Rows, from: Id): set<Id> {
    set id | id in rows && Reaches(rows, from, id)
  }

  // --- the table -----------------------------------------------------------------------

  class Table {
    var rows: Rows

    constructor ()
      ensures rows == map[]
    {
      rows := map[];
    }

    method Find(token: Token) returns (found: Option<Id>)
      ensures found.Some? ==> found.value in rows && rows[found.value].token == token
      ensures found.None? ==> forall id :: id in rows ==> rows[id].token != token
    {
      if id :| id in rows && rows[id].token == token {
        return Some(id);
      }
      return None;
    }

    // Adds the row of a new refresh token, live until it expires.
    method Issue(id: Id, userId: nat, workspaceId: nat, token: Token, now: int, lifetime: int)
      requires id !in rows
      modifies this
      ensures rows == old(rows)[id := Row(userId, workspaceId, token, now + lifetime, None, None)]
    {
      rows := rows[id := Row(userId, workspaceId, token, now + lifetime, None, None)];
    }

    // Revokes exactly the rows the chain from `start` reaches; those already revoked keep
    // their time. The walk ends on any table, chained in a circle or not.
    method RevokeDescendants(start: Id, now: int)
      requires start in rows
      modifies this
      ensures rows == RevokedIn(old(rows), Descendants(old(rows), start), now)
    {
      ghost var was := rows;
      var current := Some(start);
      var seen: set<Id> := {};
      ghost var walked: nat := 0;
      while current.Some? && current.value !in seen
        invariant rows == RevokedIn(was, seen, now) && seen <= was.Keys
        invariant current.Some? ==> current.value in was && Leads(was, start, current.value, walked)
        invariant forall id :: id in seen ==> Reaches(was, start, id)
        invariant start in seen || current == Some(start)
        invariant forall id :: id in seen && was[id].rotatedTo.Some? && was[id].rotatedTo.value in was ==>
                    was[id].rotatedTo.value in seen || current == was[id].rotatedTo
        decreases was.Keys - seen
      {
        var id := current.value;
        assert Reaches(was, start, id);
        seen := seen + {id};
        if rows[id].revokedAt.None? {
          rows := rows[id := rows[id].(revokedAt := Some(now))];
        }
        if rows[id].rotatedTo.None? {
          current := None;
          break;
        }
        var next := rows[id].rotatedTo.value;
        LeadsOn(was, start, id, walked);
        walked := walked + 1;
        current := if next in rows then Some(next) else None;
      }
      forall id | id in was && Reaches(was, start, id)
        ensures id in seen
      {
        var n: nat :| Leads(was, start, id, n);
        ClosedHoldsChain(was, start, id, n, seen);
      }
      assert seen == Descendants(was, start);
    }

    // Consumes a token, or says why not; a token already exchanged costs its chain.
    method Spend(token: Token, now: int) returns (result: Spending)
      modifies this
      ensures result.Spent? ==>
                && result.id in rows && rows == old(rows) && rows[result.id].token == token
                && Spendable(rows[result.id], now)
      ensures result.Refused? && result.error != ReuseDetected ==> rows == old(rows)
      ensures result == Refused(ReuseDetected) ==>
                exists id :: && id in old(rows) && old(rows)[id].token == token && old(rows)[id].rotatedTo.Some?
                             && rows == RevokedIn(old(rows), Descendants(old(rows), id), now)
      ensures result == Refused(UnknownToken) <==> forall id :: id in old(rows) ==> old(rows)[id].token != token
      ensures UniqueTokens(old(rows)) ==> forall id :: id in old(rows) && old(rows)[id].token == token ==>
                result == Judged(id, old(rows)[id], now)
    {
      var found := Find(token);
      if found.None? {
        return Refused(UnknownToken);
      }
      var row := rows[found.value];
      if row.rotatedTo.Some? {
        RevokeDescendants(found.value, now);
        return Refused(ReuseDetected);
      }
      if row.revokedAt.Some? {
        return Refused(TokenRevoked);
      }
      if row.expiresAt <= now {
        return Refused(TokenExpired);
      }
      return Spent(found.value);
    }

    // Issues the next token of a family and retires the one that bought it.
    method Rotate(presented: Id, id: Id, workspaceId: nat, token: Token, now: int, lifetime: int)
      requires presented in rows && id !in rows
      requires forall other :: other in rows ==> rows[other].token != token
      modifies this
      ensures rows == Rotated(old(rows), presented, id, workspaceId, token, now, lifetime)
    {
      Issue(id, rows[presented].userId, workspaceId, token, now, lifetime);
      var successor := Find(token);
      assert id in rows && rows[id].token == token;
      rows := rows[presented := rows[presented].(rotatedTo := successor, revokedAt := Some(now))];
    }

    // Spends a token and rotates it, in one transaction. `membership` is the workspace the
    // new session is for; with none the spent row is left as it was.
    method Refresh(token: Token, now: int, id: Id, membership: Option<nat>, newToken: Token, lifetime: int)
      returns (result: Spending)
      requires UniqueTokens(rows) && id !in rows
      requires forall other :: other in rows ==> rows[other].token != newToken
      modifies this
      ensures (rows, result) == Refreshed(old(rows), token, now, id, membership, newToken, lifetime)
    {
      ghost var was := rows;
      result := Spend(token, now);
      ghost var at := Holder(was, token);
      if result.Spent? && membership.Some? {
        Rotate(result.id, id, membership.value, newToken, now, lifetime);
      }
    }

    // Logging out revokes the row of the token presented, if it is known and live.
    method RevokeRefreshToken(token: Token, now: int)
      requires UniqueTokens(rows)
      modifies this
      ensures rows == LoggedOut(old(rows), token, now)
    {
      var found := Find(token);
      ghost var at := Holder(rows, token);
      if found.Some? && rows[found.value].revokedAt.None? {
        rows := rows[found.value := rows[found.value].(revokedAt := Some(now))];
      }
    }

    // Revokes every live row a user holds against a workspace, and counts them.
    method RevokeWorkspaceSessions(userId: nat, workspaceId: nat, now: int) returns (n: nat)
      modifies this
      ensures rows == RevokedIn(old(rows), LiveIn(old(rows), userId, workspaceId), now)
      ensures n == |LiveIn(old(rows), userId, workspaceId)|
      ensures LiveIn(rows, userId, workspaceId) == {}
    {
      ghost var was := rows;
      var live := LiveIn(rows, userId, workspaceId);
      var todo := live;
      while todo != {}
        invariant todo <= live && rows == RevokedIn(was, live - todo, now)
        decreases todo
      {
        var id :| id in todo;
        assert rows[id].revokedAt.None?;
        rows := rows[id := rows[id].(revokedAt := Some(now))];
        todo := todo - {id};
      }
      n := |live|;
      assert live - todo == live;
    }
  }

  // The walk goes one row further.
  lemma {:induction false} LeadsOn(rows: Rows, from: Id, to: Id, n: nat)
    requires Leads(rows, from, to, n) && to in rows && rows[to].rotatedTo.Some?
    ensures Leads(rows, from, rows[to].rotatedTo.value, n + 1)
    decreases n
  {
    if n > 0 {
      LeadsOn(rows, rows[from].rotatedTo.value, to, n - 1);
    } else {
      assert Leads(rows, rows[to].rotatedTo.value, rows[to].rotatedTo.value, 0);
    }
  }

  // A set closed under `rotated_to` that holds a row holds every stored row after it.
  lemma {:induction false} ClosedHoldsChain(rows: Rows, from: Id, to: Id, n: nat, ids: set<Id>)
    requires from in ids && ids <= rows.Keys && to in rows && Leads(rows, from, to, n)
    requires forall id :: id in ids && rows[id].rotatedTo.Some? && rows[id].rotatedTo.value in rows ==>
               rows[id].rotatedTo.value in ids
    ensures to in ids
    decreases n
  {
    if n > 0 {
      var next := rows[from].rotatedTo.value;
      if next in rows {
        ClosedHoldsChain(rows, next, to, n - 1, ids);
      }
    }
  }

  predicate Spendable(row: Row, now: int) {
    row.rotatedTo.None? && row.revokedAt.None? && now < row.expiresAt
  }

  // What presenting the token of this row comes to, in the order the program checks.
  function Judged(id: Id, row: Row, now: int): Spending {
    if row.rotatedTo.Some? then Refused(ReuseDetected)
    else if row.revokedAt.Some? then Refused(TokenRevoked)
    else if row.expiresAt <= now then Refused(TokenExpired)
    else Spent(id)
  }

  ghost predicate UniqueTokens(rows: Rows) {
    forall a, b :: a in rows && b in rows && rows[a].token == rows[b].token ==> a == b
  }

  // The row a token belongs to.
  ghost function Holder(rows: Rows, token: Token): (found: Option<Id>)
    ensures found.Some? ==> found.value in rows && rows[found.value].token == token
    ensures found.None? ==> forall id :: id in rows ==> rows[id].token != token
  {
    if id :| id in rows && rows[id].token == token then Some(id) else None
  }

  function Rotated(rows: Rows, presented: Id, id: Id, workspaceId: nat, token: Token, now: int, lifetime: int): Rows
    requires presented in rows
  {
    rows[id := Row(rows[presented].userId, workspaceId, token, now + lifetime, None, None)]
        [presented := rows[presented].(rotatedTo := Some(id), revokedAt := Some(now))]
  }

  // The table and the answer after a refresh.
  ghost function Refreshed(
    rows: Rows, token: Token, now: int, id: Id, membership: Option<nat>, newToken: Token, lifetime: int): (Rows, Spending)
  {
    var found := Holder(rows, token);
    if found.None? then (rows, Refused(UnknownToken))
    else
      var judged := Judged(found.value, rows[found.value], now);
      if judged == Refused(ReuseDetected) then (RevokedIn(rows, Descendants(rows, found.value), now), judged)
      else if judged.Spent? && membership.Some? then
        (Rotated(rows, found.value, id, membership.value, newToken, now, lifetime), judged)
      else (rows, judged)
  }

  ghost function LoggedOut(rows: Rows, token: Token, now: int): Rows {
    var found := Holder(rows, token);
    if found.None? then rows else RevokedIn(rows, {found.value}, now)
  }

  function LiveIn(rows: Rows, userId: nat, workspaceId: nat): set<Id> {
    set id | id in rows && rows[id].userId == userId && rows[id].workspaceId == workspaceId && rows[id].revokedAt.None?
  }
}

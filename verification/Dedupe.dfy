// Renaming the holders of a name that is already someone's, oldest holder first.
module Dedupe {
  import Decimal
  import opened Options
  import opened Names

  datatype NameRow = NameRow(id: nat, createdAt: int, displayName: string, email: string)

  // --- the order of age --------------------------------------------------------------

  predicate Older(a: NameRow, b: NameRow) {
    a.createdAt < b.createdAt || (a.createdAt == b.createdAt && a.id < b.id)
  }

  function Insert(row: NameRow, rows: seq<NameRow>): seq<NameRow> {
    if rows == [] || Older(row, rows[0]) then [row] + rows else [rows[0]] + Insert(row, rows[1..])
  }

  // `sorted` on creation time, then id.
  function ByAge(rows: seq<NameRow>): seq<NameRow> {
    if rows == [] then [] else Insert(rows[0], ByAge(rows[1..]))
  }

  // The ids are the table's primary keys.
  ghost predicate DistinctIds(rows: seq<NameRow>) {
    forall i, j :: 0 <= i < j < |rows| ==> rows[i].id != rows[j].id
  }

  ghost predicate InOrder(rows: seq<NameRow>) {
    forall i, j :: 0 <= i < j < |rows| ==> Older(rows[i], rows[j])
  }

  lemma {:induction false} InsertKeepsRows(row: NameRow, rows: seq<NameRow>)
    ensures multiset(Insert(row, rows)) == multiset(rows) + multiset{row}
  {
    if rows != [] && !Older(row, rows[0]) {
      InsertKeepsRows(row, rows[1..]);
      assert rows == [rows[0]] + rows[1..];
    }
  }

  lemma {:induction false} ByAgeKeepsRows(rows: seq<NameRow>)
    ensures multiset(ByAge(rows)) == multiset(rows)
  {
    if rows != [] {
      ByAgeKeepsRows(rows[1..]);
      InsertKeepsRows(rows[0], ByAge(rows[1..]));
      assert rows == [rows[0]] + rows[1..];
    }
  }

  lemma {:induction false} InsertIsInOrder(row: NameRow, rows: seq<NameRow>)
    requires InOrder(rows) && forall r :: r in rows ==> r.id != row.id
    ensures InOrder(Insert(row, rows))
  {
    if rows != [] && !Older(row, rows[0]) {
      InsertIsInOrder(row, rows[1..]);
      InsertKeepsRows(row, rows[1..]);
      forall r | r in Insert(row, rows[1..])
        ensures Older(rows[0], r)
      {
        assert r in multiset(rows[1..]) + multiset{row};
      }
    }
  }

  lemma SameRowsSameMembers(a: seq<NameRow>, b: seq<NameRow>)
    requires multiset(a) == multiset(b)
    ensures |a| == |b| && forall r :: r in a <==> r in b
  {
    assert |multiset(a)| == |a| && |multiset(b)| == |b|;
    forall r
      ensures r in a <==> r in b
    {
      assert r in a <==> r in multiset(a);
      assert r in b <==> r in multiset(b);
    }
  }

  lemma {:induction false} ByAgeIsInOrder(rows: seq<NameRow>)
    requires DistinctIds(rows)
    ensures InOrder(ByAge(rows))
  {
    if rows != [] {
      ByAgeIsInOrder(rows[1..]);
      ByAgeKeepsRows(rows[1..]);
      SameRowsSameMembers(ByAge(rows[1..]), rows[1..]);
      InsertIsInOrder(rows[0], ByAge(rows[1..]));
    }
  }

  // Two lists of the same rows in order of age are the same list.
  lemma {:induction false} OrderIsUnique(a: seq<NameRow>, b: seq<NameRow>)
    requires InOrder(a) && InOrder(b) && multiset(a) == multiset(b)
    ensures a == b
  {
    SameRowsSameMembers(a, b);
    if a != [] {
      assert a[0] in b && b[0] in a;
      assert a[0] == b[0];
      TailRows(a);
      TailRows(b);
      OrderIsUnique(a[1..], b[1..]);
    }
  }

  lemma TailRows(a: seq<NameRow>)
    requires a != []
    ensures a == [a[0]] + a[1..] && multiset(a[1..]) == multiset(a) - multiset{a[0]}
  {
    assert a == [a[0]] + a[1..];
  }

  // --- the three passes ----------------------------------------------------------------

  function LocalPart(email: string): string {
    if email == "" || email[0] == '@' then "" else [email[0]] + LocalPart(email[1..])
  }

  // A row's own name: as stored, or repaired if the rules refuse it.
  function BaseName(u: Unicode, row: NameRow): string {
    var name := Normalise(u, row.displayName);
    if Check(u, name).None? then name else Provisional(u, name, LocalPart(row.email))
  }

  function BaseKey(u: Unicode, row: NameRow): string {
    NameKey(u, BaseName(u, row))
  }

  // The two as functions of the row, for the passes that look no further into them.
  function OwnName(u: Unicode): NameRow -> string {
    row => BaseName(u, row)
  }

  function KeyOf(u: Unicode): NameRow -> string {
    row => BaseKey(u, row)
  }

  // First, every row under its own name.
  function BaseNames(own: NameRow -> string, ordered: seq<NameRow>): map<nat, string> {
    if ordered == [] then map[]
    else BaseNames(own, ordered[..|ordered| - 1])[ordered[|ordered| - 1].id := own(ordered[|ordered| - 1])]
  }

  function Keys(key: NameRow -> string, ordered: seq<NameRow>): set<string> {
    set i | 0 <= i < |ordered| :: key(ordered[i])
  }

  // Then the rows whose key an older row already holds.
  function Duplicates(key: NameRow -> string, ordered: seq<NameRow>): seq<NameRow> {
    if ordered == [] then []
    else
      var rest, last := ordered[..|ordered| - 1], ordered[|ordered| - 1];
      Duplicates(key, rest) + (if key(last) in Keys(key, rest) then [last] else [])
  }

  // Last, a suffix for each of those, oldest first, from what is still free.
  function Renamed(
    u: Unicode, own: NameRow -> string, names: map<nat, string>, duplicates: seq<NameRow>, reserved: set<string>): map<nat, string>
    requires Lawful(u)
    decreases |duplicates|
  {
    if duplicates == [] then names
    else
      var base := own(duplicates[0]);
      var name := Candidate(base, FreeNumber(u, base, reserved));
      Renamed(u, own, names[duplicates[0].id := name], duplicates[1..], reserved + {NameKey(u, name)})
  }

  function FinalNames(u: Unicode, rows: seq<NameRow>): map<nat, string>
    requires Lawful(u)
  {
    var ordered := ByAge(rows);
    Renamed(u, OwnName(u), BaseNames(OwnName(u), ordered), Duplicates(KeyOf(u), ordered), Keys(KeyOf(u), ordered))
  }

  // Gives every row a name of its own, so that no two share a key.
  method Deduplicate(u: Unicode, rows: seq<NameRow>) returns (names: map<nat, string>)
    requires Lawful(u) && DistinctIds(rows)
    ensures names == FinalNames(u, rows)
  {
    var ordered := ByAge(rows);
    InOrderRows(rows);
    names := OwnNames(u, ordered);
    var reserved, duplicates := Reserve(u, ordered, names);
    DuplicatesAreRows(OwnName(u), KeyOf(u), ordered);
    names := AddSuffixes(u, OwnName(u), names, duplicates, reserved);
  }

  method OwnNames(u: Unicode, ordered: seq<NameRow>) returns (names: map<nat, string>)
    ensures names == BaseNames(OwnName(u), ordered)
  {
    names := map[];
    for i := 0 to |ordered|
      invariant names == BaseNames(OwnName(u), ordered[..i])
    {
      var row := ordered[i];
      var name := Normalise(u, row.displayName);
      if Check(u, name).Some? {
        name := Provisional(u, name, LocalPart(row.email));
      }
      names := names[row.id := name];
      assert ordered[..i + 1][..i] == ordered[..i];
    }
    assert ordered[..|ordered|] == ordered;
  }

  method Reserve(u: Unicode, ordered: seq<NameRow>, names: map<nat, string>)
    returns (reserved: set<string>, duplicates: seq<NameRow>)
    requires DistinctIds(ordered) && names == BaseNames(OwnName(u), ordered)
    ensures reserved == Keys(KeyOf(u), ordered) && duplicates == Duplicates(KeyOf(u), ordered)
  {
    reserved, duplicates := {}, [];
    for i := 0 to |ordered|
      invariant reserved == Keys(KeyOf(u), ordered[..i]) && duplicates == Duplicates(KeyOf(u), ordered[..i])
    {
      KeysOfOneMore(KeyOf(u), ordered, i);
      DuplicatesOfOneMore(KeyOf(u), ordered, i);
      BaseNamesAt(OwnName(u), ordered, i);
      var key := NameKey(u, names[ordered[i].id]);
      if key in reserved {
        duplicates := duplicates + [ordered[i]];
      } else {
        reserved := reserved + {key};
      }
    }
    assert ordered[..|ordered|] == ordered;
  }

  method AddSuffixes(
    u: Unicode, ghost own: NameRow -> string, names0: map<nat, string>, duplicates: seq<NameRow>, taken: set<string>)
    returns (names: map<nat, string>)
    requires Lawful(u) && DistinctIds(duplicates)
    requires forall k :: 0 <= k < |duplicates| ==>
               duplicates[k].id in names0 && names0[duplicates[k].id] == own(duplicates[k])
    ensures names == Renamed(u, own, names0, duplicates, taken)
  {
    names := names0;
    var reserved := taken;
    for i := 0 to |duplicates|
      invariant Renamed(u, own, names, duplicates[i..], reserved) == Renamed(u, own, names0, duplicates, taken)
      invariant forall k :: i <= k < |duplicates| ==>
                  duplicates[k].id in names && names[duplicates[k].id] == own(duplicates[k])
    {
      var id := duplicates[i].id;
      var name := FirstFree(u, names[id], reserved);
      assert duplicates[i..][1..] == duplicates[i + 1..];
      names := names[id := name];
      reserved := reserved + {NameKey(u, name)};
    }
  }

  // --- what the passes hold ----------------------------------------------------------------

  lemma InOrderRows(rows: seq<NameRow>)
    requires DistinctIds(rows)
    ensures InOrder(ByAge(rows)) && DistinctIds(ByAge(rows)) && |ByAge(rows)| == |rows|
    ensures forall r :: r in ByAge(rows) <==> r in rows
  {
    ByAgeIsInOrder(rows);
    ByAgeKeepsRows(rows);
    SameRowsSameMembers(ByAge(rows), rows);
    var ordered := ByAge(rows);
    forall i, j | 0 <= i < j < |ordered|
      ensures ordered[i].id != ordered[j].id
    {
      assert Older(ordered[i], ordered[j]);
      assert ordered[i] in rows && ordered[j] in rows;
    }
  }

  lemma KeysOfOneMore(key: NameRow -> string, ordered: seq<NameRow>, i: nat)
    requires i < |ordered|
    ensures Keys(key, ordered[..i + 1]) == Keys(key, ordered[..i]) + {key(ordered[i])}
  {
    assert forall k :: 0 <= k < i ==> ordered[..i + 1][k] == ordered[..i][k];
    forall x | x in Keys(key, ordered[..i]) + {key(ordered[i])}
      ensures x in Keys(key, ordered[..i + 1])
    {
      if x == key(ordered[i]) {
        assert key(ordered[..i + 1][i]) == x;
      } else {
        var k :| 0 <= k < i && x == key(ordered[..i][k]);
        assert key(ordered[..i + 1][k]) == x;
      }
    }
  }

  lemma DuplicatesOfOneMore(key: NameRow -> string, ordered: seq<NameRow>, i: nat)
    requires i < |ordered|
    ensures Duplicates(key, ordered[..i + 1])
            == Duplicates(key, ordered[..i]) + (if key(ordered[i]) in Keys(key, ordered[..i]) then [ordered[i]] else [])
  {
    assert ordered[..i + 1][..i] == ordered[..i];
  }

  lemma {:induction false} BaseNamesAt(own: NameRow -> string, ordered: seq<NameRow>, i: nat)
    requires DistinctIds(ordered) && i < |ordered|
    ensures ordered[i].id in BaseNames(own, ordered) && BaseNames(own, ordered)[ordered[i].id] == own(ordered[i])
  {
    if i < |ordered| - 1 {
      BaseNamesAt(own, ordered[..|ordered| - 1], i);
    }
  }

  lemma {:induction false} BaseNamesOnlyOfRows(own: NameRow -> string, ordered: seq<NameRow>, id: nat)
    requires id in BaseNames(own, ordered)
    ensures exists i :: 0 <= i < |ordered| && ordered[i].id == id
  {
    var last := ordered[|ordered| - 1];
    if last.id != id {
      BaseNamesOnlyOfRows(own, ordered[..|ordered| - 1], id);
      var i :| 0 <= i < |ordered| - 1 && ordered[..|ordered| - 1][i].id == id;
      assert ordered[i].id == id;
    }
  }

  // An older row holds the same key.
  ghost predicate IsDuplicate(key: NameRow -> string, ordered: seq<NameRow>, i: nat)
    requires i < |ordered|
  {
    key(ordered[i]) in Keys(key, ordered[..i])
  }

  lemma DuplicatesAreRows(own: NameRow -> string, key: NameRow -> string, ordered: seq<NameRow>)
    requires DistinctIds(ordered)
    ensures DistinctIds(Duplicates(key, ordered))
    ensures forall row :: row in Duplicates(key, ordered) ==>
              row in ordered && row.id in BaseNames(own, ordered) && BaseNames(own, ordered)[row.id] == own(row)
  {
    DuplicatesAreMembers(key, ordered);
    forall row | row in Duplicates(key, ordered)
      ensures row.id in BaseNames(own, ordered) && BaseNames(own, ordered)[row.id] == own(row)
    {
      var i :| 0 <= i < |ordered| && ordered[i] == row;
      BaseNamesAt(own, ordered, i);
    }
  }

  lemma {:induction false} DuplicatesAreMembers(key: NameRow -> string, ordered: seq<NameRow>)
    requires DistinctIds(ordered)
    ensures DistinctIds(Duplicates(key, ordered))
    ensures forall row :: row in Duplicates(key, ordered) ==> row in ordered
  {
    if ordered != [] {
      var rest := ordered[..|ordered| - 1];
      DuplicatesAreMembers(key, rest);
      var found := Duplicates(key, rest);
      forall k | 0 <= k < |found|
        ensures found[k] in ordered && found[k].id != ordered[|ordered| - 1].id
      {
        assert found[k] in rest;
        var i :| 0 <= i < |rest| && rest[i] == found[k];
        assert ordered[i] == found[k];
      }
    }
  }

  lemma {:induction false} DuplicatesAt(key: NameRow -> string, ordered: seq<NameRow>, i: nat)
    requires DistinctIds(ordered) && i < |ordered|
    ensures ordered[i] in Duplicates(key, ordered) <==> IsDuplicate(key, ordered, i)
    decreases |ordered|
  {
    var n := |ordered| - 1;
    var rest, last := ordered[..n], ordered[n];
    var more := if key(last) in Keys(key, rest) then [last] else [];
    var found := Duplicates(key, rest);
    assert Duplicates(key, ordered) == found + more;
    if i < n {
      DuplicatesAt(key, rest, i);
      assert rest[..i] == ordered[..i] && rest[i] == ordered[i];
      assert ordered[i].id != last.id;
      assert ordered[i] in found + more <==> ordered[i] in found;
    } else {
      DuplicatesAreMembers(key, rest);
      assert last !in rest;
      assert last in found + more <==> last in more;
    }
  }

  // --- what the names come to ----------------------------------------------------------------

  lemma BaseIsStored(u: Unicode, row: NameRow)
    requires Lawful(u)
    ensures Stored(u, BaseName(u, row))
  {
    NormaliseIsIdempotent(u, row.displayName);
    ProvisionalIsStored(u, Normalise(u, row.displayName), LocalPart(row.email));
  }

  // While suffixes are being given: the names already settled have distinct keys, all
  // reserved, and the names still to change have not changed.
  ghost predicate Settling(u: Unicode, names: map<nat, string>, duplicates: seq<NameRow>, reserved: set<string>) {
    && (forall k :: 0 <= k < |duplicates| ==> duplicates[k].id in names)
    && DistinctIds(duplicates)
    && (forall a :: a in names && Settled(duplicates, a) ==> NameKey(u, names[a]) in reserved)
    && (forall a, b :: a in names && b in names && a != b && Settled(duplicates, a) && Settled(duplicates, b) ==>
          NameKey(u, names[a]) != NameKey(u, names[b]))
  }

  ghost predicate Settled(duplicates: seq<NameRow>, id: nat) {
    forall k :: 0 <= k < |duplicates| ==> duplicates[k].id != id
  }

  lemma SettleOne(u: Unicode, names: map<nat, string>, duplicates: seq<NameRow>, reserved: set<string>, name: string)
    requires duplicates != [] && Settling(u, names, duplicates, reserved) && NameKey(u, name) !in reserved
    ensures Settling(u, names[duplicates[0].id := name], duplicates[1..], reserved + {NameKey(u, name)})
  {
    var names' := names[duplicates[0].id := name];
    var rest := duplicates[1..];
    forall a | a in names' && Settled(rest, a)
      ensures NameKey(u, names'[a]) in reserved + {NameKey(u, name)}
      ensures a != duplicates[0].id ==> Settled(duplicates, a)
    {
      assert a != duplicates[0].id ==> Settled(duplicates, a) by {
        assert forall k :: 1 <= k < |duplicates| ==> duplicates[k] == rest[k - 1];
      }
    }
  }

  // Every settled name stays, every name ends up settled, and all keys end up distinct.
  lemma {:induction false} RenamedSettles(
    u: Unicode, own: NameRow -> string, names: map<nat, string>, duplicates: seq<NameRow>, reserved: set<string>)
    requires Lawful(u) && Settling(u, names, duplicates, reserved)
    ensures var final := Renamed(u, own, names, duplicates, reserved);
            && final.Keys == names.Keys
            && (forall a, b :: a in final && b in final && a != b ==> NameKey(u, final[a]) != NameKey(u, final[b]))
            && (forall a :: a in names && Settled(duplicates, a) ==> final[a] == names[a])
    decreases |duplicates|
  {
    if duplicates == [] {
      assert forall a :: Settled(duplicates, a);
    } else {
      var base := own(duplicates[0]);
      var name := Candidate(base, FreeNumber(u, base, reserved));
      SettleOne(u, names, duplicates, reserved, name);
      RenamedSettles(u, own, names[duplicates[0].id := name], duplicates[1..], reserved + {NameKey(u, name)});
      forall a | a in names && Settled(duplicates, a)
        ensures a != duplicates[0].id && Settled(duplicates[1..], a)
      {
        assert forall k :: 0 <= k < |duplicates[1..]| ==> duplicates[1..][k] == duplicates[k + 1];
      }
    }
  }

  lemma SettledKeysDiffer(
    u: Unicode, own: NameRow -> string, key: NameRow -> string, ordered: seq<NameRow>, a: nat, b: nat)
    requires DistinctIds(ordered) && forall row :: row in ordered ==> key(row) == NameKey(u, own(row))
    requires a in BaseNames(own, ordered) && b in BaseNames(own, ordered) && a != b
    requires Settled(Duplicates(key, ordered), a) && Settled(Duplicates(key, ordered), b)
    ensures NameKey(u, BaseNames(own, ordered)[a]) != NameKey(u, BaseNames(own, ordered)[b])
  {
    var i := RowOf(own, ordered, a);
    var j := RowOf(own, ordered, b);
    if i < j {
      FirstHoldersDiffer(key, ordered, i, j);
    } else {
      FirstHoldersDiffer(key, ordered, j, i);
    }
  }

  lemma OwnKeyIsReserved(u: Unicode, own: NameRow -> string, key: NameRow -> string, ordered: seq<NameRow>, a: nat)
    requires DistinctIds(ordered) && forall row :: row in ordered ==> key(row) == NameKey(u, own(row))
    requires a in BaseNames(own, ordered)
    ensures NameKey(u, BaseNames(own, ordered)[a]) in Keys(key, ordered)
  {
    var i := RowOf(own, ordered, a);
  }

  lemma StartsSettling(u: Unicode, own: NameRow -> string, key: NameRow -> string, ordered: seq<NameRow>)
    requires DistinctIds(ordered) && forall row :: row in ordered ==> key(row) == NameKey(u, own(row))
    ensures Settling(u, BaseNames(own, ordered), Duplicates(key, ordered), Keys(key, ordered))
  {
    var names, duplicates := BaseNames(own, ordered), Duplicates(key, ordered);
    DuplicatesAreRows(own, key, ordered);
    forall a | a in names
      ensures NameKey(u, names[a]) in Keys(key, ordered)
    {
      OwnKeyIsReserved(u, own, key, ordered, a);
    }
    forall a, b | a in names && b in names && a != b && Settled(duplicates, a) && Settled(duplicates, b)
      ensures NameKey(u, names[a]) != NameKey(u, names[b])
    {
      SettledKeysDiffer(u, own, key, ordered, a, b);
    }
  }

  lemma RowOf(own: NameRow -> string, ordered: seq<NameRow>, id: nat) returns (i: nat)
    requires DistinctIds(ordered) && id in BaseNames(own, ordered)
    ensures i < |ordered| && ordered[i].id == id && BaseNames(own, ordered)[id] == own(ordered[i])
  {
    BaseNamesOnlyOfRows(own, ordered, id);
    i :| 0 <= i < |ordered| && ordered[i].id == id;
    BaseNamesAt(own, ordered, i);
  }

  lemma FirstHoldersDiffer(key: NameRow -> string, ordered: seq<NameRow>, i: nat, j: nat)
    requires DistinctIds(ordered) && i < j < |ordered|
    requires Settled(Duplicates(key, ordered), ordered[j].id)
    ensures key(ordered[i]) != key(ordered[j])
  {
    DuplicatesAt(key, ordered, j);
    assert ordered[j] !in Duplicates(key, ordered);
    assert ordered[..j][i] == ordered[i];
  }

  lemma SettledIsNoDuplicate(key: NameRow -> string, ordered: seq<NameRow>, i: nat)
    requires DistinctIds(ordered) && i < |ordered| && !IsDuplicate(key, ordered, i)
    ensures Settled(Duplicates(key, ordered), ordered[i].id)
  {
    DuplicatesAt(key, ordered, i);
    DuplicatesAreMembers(key, ordered);
    var duplicates := Duplicates(key, ordered);
    forall k | 0 <= k < |duplicates|
      ensures duplicates[k].id != ordered[i].id
    {
      assert duplicates[k] in ordered;
      var m :| 0 <= m < |ordered| && ordered[m] == duplicates[k];
    }
  }

  // Every row is named, no two names share a key, and a row that no older row shares its key
  // with keeps its own name: among them the oldest holder of every key.
  lemma NamesAreDistinct(u: Unicode, rows: seq<NameRow>)
    requires Lawful(u) && DistinctIds(rows)
    ensures var final := FinalNames(u, rows);
            && (forall row :: row in rows ==> row.id in final)
            && (forall a, b :: a in final && b in final && a != b ==> NameKey(u, final[a]) != NameKey(u, final[b]))
            && (forall row :: row in rows && KeepsName(KeyOf(u), rows, row) ==> final[row.id] == BaseName(u, row))
  {
    var ordered := ByAge(rows);
    InOrderRows(rows);
    StartsSettling(u, OwnName(u), KeyOf(u), ordered);
    RenamedSettles(u, OwnName(u), BaseNames(OwnName(u), ordered), Duplicates(KeyOf(u), ordered), Keys(KeyOf(u), ordered));
    forall row | row in rows
      ensures row.id in BaseNames(OwnName(u), ordered)
      ensures KeepsName(KeyOf(u), rows, row) ==> FinalNames(u, rows)[row.id] == BaseName(u, row)
    {
      var i :| 0 <= i < |ordered| && ordered[i] == row;
      BaseNamesAt(OwnName(u), ordered, i);
      if KeepsName(KeyOf(u), rows, row) {
        NoOlderHolder(KeyOf(u), rows, i);
        SettledIsNoDuplicate(KeyOf(u), ordered, i);
      }
    }
  }

  // No older row has the same key.
  ghost predicate KeepsName(key: NameRow -> string, rows: seq<NameRow>, row: NameRow) {
    forall other :: other in rows && key(other) == key(row) ==>
      row.createdAt < other.createdAt || (row.createdAt == other.createdAt && row.id <= other.id)
  }

  lemma NoOlderHolder(key: NameRow -> string, rows: seq<NameRow>, i: nat)
    requires DistinctIds(rows) && i < |ByAge(rows)|
    ensures KeepsName(key, rows, ByAge(rows)[i]) <==> !IsDuplicate(key, ByAge(rows), i)
  {
    var ordered := ByAge(rows);
    InOrderRows(rows);
    if IsDuplicate(key, ordered, i) {
      var k :| 0 <= k < i && key(ordered[i]) == key(ordered[..i][k]);
      assert Older(ordered[k], ordered[i]) && ordered[k] in rows;
    } else {
      forall other | other in rows && Older(other, ordered[i])
        ensures key(other) != key(ordered[i])
      {
        var k :| 0 <= k < |ordered| && ordered[k] == other;
        assert k < i;
        assert ordered[..i][k] == other;
      }
    }
  }

  // The result does not depend on the order the rows come in.
  lemma InputOrderDoesNotMatter(u: Unicode, rows: seq<NameRow>, rows': seq<NameRow>)
    requires Lawful(u) && DistinctIds(rows) && DistinctIds(rows') && multiset(rows) == multiset(rows')
    ensures FinalNames(u, rows) == FinalNames(u, rows')
  {
    ByAgeIsInOrder(rows);
    ByAgeIsInOrder(rows');
    ByAgeKeepsRows(rows);
    ByAgeKeepsRows(rows');
    OrderIsUnique(ByAge(rows), ByAge(rows'));
  }

  lemma {:induction false} OldestHolder(key: NameRow -> string, rows: seq<NameRow>, i: nat) returns (oldest: nat)
    requires DistinctIds(rows) && i < |ByAge(rows)|
    ensures oldest <= i && key(ByAge(rows)[oldest]) == key(ByAge(rows)[i])
    ensures !IsDuplicate(key, ByAge(rows), oldest)
    decreases i
  {
    var ordered := ByAge(rows);
    if IsDuplicate(key, ordered, i) {
      var k :| 0 <= k < i && key(ordered[i]) == key(ordered[..i][k]);
      oldest := OldestHolder(key, rows, k);
    } else {
      oldest := i;
    }
  }

  // A row keeps its own name exactly when no older row has the same key.
  lemma OldestKeepsName(u: Unicode, rows: seq<NameRow>, row: NameRow)
    requires Lawful(u) && DistinctIds(rows) && row in rows
    ensures row.id in FinalNames(u, rows)
    ensures FinalNames(u, rows)[row.id] == BaseName(u, row) <==> KeepsName(KeyOf(u), rows, row)
  {
    NamesAreDistinct(u, rows);
    var ordered := ByAge(rows);
    InOrderRows(rows);
    if !KeepsName(KeyOf(u), rows, row) {
      var i :| 0 <= i < |ordered| && ordered[i] == row;
      NoOlderHolder(KeyOf(u), rows, i);
      var oldest := OldestHolder(KeyOf(u), rows, i);
      NoOlderHolder(KeyOf(u), rows, oldest);
      assert ordered[oldest] in rows && ordered[oldest].id != row.id;
      assert FinalNames(u, rows)[ordered[oldest].id] == BaseName(u, ordered[oldest]);
    }
  }

  // --- every name passes ---------------------------------------------------------------------

  lemma {:induction false} KeysAndDuplicatesCount(key: NameRow -> string, ordered: seq<NameRow>)
    ensures |Keys(key, ordered)| + |Duplicates(key, ordered)| <= |ordered|
  {
    if ordered == [] {
      assert Keys(key, ordered) == {};
    } else {
      var n := |ordered| - 1;
      KeysAndDuplicatesCount(key, ordered[..n]);
      KeysOfOneMore(key, ordered, n);
      assert ordered[..n + 1] == ordered;
    }
  }

  ghost predicate AllStored(u: Unicode, names: map<nat, string>) {
    forall a :: a in names ==> Stored(u, names[a])
  }

  // The numbers the duplicates are given, in order.
  function Numbers(u: Unicode, own: NameRow -> string, duplicates: seq<NameRow>, reserved: set<string>): seq<nat>
    requires Lawful(u)
    decreases |duplicates|
  {
    if duplicates == [] then []
    else
      var base := own(duplicates[0]);
      var n := FreeNumber(u, base, reserved);
      [n] + Numbers(u, own, duplicates[1..], reserved + {NameKey(u, Candidate(base, n))})
  }

  function NumbersGiven(u: Unicode, rows: seq<NameRow>): seq<nat>
    requires Lawful(u)
  {
    var ordered := ByAge(rows);
    Numbers(u, OwnName(u), Duplicates(KeyOf(u), ordered), Keys(KeyOf(u), ordered))
  }

  // Every number given leaves room in the limit for a character of the name.
  ghost predicate LeaveRoom(numbers: seq<nat>) {
    forall n :: n in numbers ==> |Suffix(n)| < MAX_LENGTH
  }

  lemma FreeCandidateIsStored(u: Unicode, base: string, reserved: set<string>)
    requires Lawful(u) && Stored(u, base) && NameKey(u, base) in reserved
    ensures var n := FreeNumber(u, base, reserved);
            Stored(u, Candidate(base, n)) <==> |Suffix(n)| < MAX_LENGTH
  {
    assert NameKey(u, Candidate(base, 1)) in reserved;
    CandidateIsStored(u, base, FreeNumber(u, base, reserved));
  }

  // A name that is not to change does not.
  lemma {:induction false} RenamedKeeps(
    u: Unicode, own: NameRow -> string, names: map<nat, string>, duplicates: seq<NameRow>, reserved: set<string>, id: nat)
    requires Lawful(u) && id in names && Settled(duplicates, id)
    ensures id in Renamed(u, own, names, duplicates, reserved) && Renamed(u, own, names, duplicates, reserved)[id] == names[id]
    decreases |duplicates|
  {
    if duplicates != [] {
      var base := own(duplicates[0]);
      var name := Candidate(base, FreeNumber(u, base, reserved));
      assert duplicates[0].id != id;
      assert forall k :: 0 <= k < |duplicates[1..]| ==> duplicates[1..][k] == duplicates[k + 1];
      RenamedKeeps(u, own, names[duplicates[0].id := name], duplicates[1..], reserved + {NameKey(u, name)}, id);
    }
  }

  lemma LeaveRoomOfMore(n: nat, numbers: seq<nat>)
    ensures LeaveRoom([n] + numbers) <==> |Suffix(n)| < MAX_LENGTH && LeaveRoom(numbers)
  {
    assert n in [n] + numbers;
    assert forall m :: m in [n] + numbers <==> m == n || m in numbers;
  }

  ghost predicate ToRename(u: Unicode, own: NameRow -> string, duplicates: seq<NameRow>, reserved: set<string>) {
    && DistinctIds(duplicates)
    && forall k :: 0 <= k < |duplicates| ==> NameKey(u, own(duplicates[k])) in reserved && Stored(u, own(duplicates[k]))
  }

  lemma RestToRename(u: Unicode, own: NameRow -> string, duplicates: seq<NameRow>, reserved: set<string>, key: string)
    requires duplicates != [] && ToRename(u, own, duplicates, reserved)
    ensures ToRename(u, own, duplicates[1..], reserved + {key}) && Settled(duplicates[1..], duplicates[0].id)
  {
    assert forall k :: 0 <= k < |duplicates[1..]| ==> duplicates[1..][k] == duplicates[k + 1];
  }

  lemma {:induction false} RenamedIsStored(
    u: Unicode, own: NameRow -> string, names: map<nat, string>, duplicates: seq<NameRow>, reserved: set<string>)
    requires Lawful(u) && ToRename(u, own, duplicates, reserved) && AllStored(u, names)
    ensures AllStored(u, Renamed(u, own, names, duplicates, reserved)) <==> LeaveRoom(Numbers(u, own, duplicates, reserved))
    decreases |duplicates|
  {
    if duplicates != [] {
      var base, id := own(duplicates[0]), duplicates[0].id;
      var n := FreeNumber(u, base, reserved);
      var name := Candidate(base, n);
      var more := reserved + {NameKey(u, name)};
      FreeCandidateIsStored(u, base, reserved);
      RestToRename(u, own, duplicates, reserved, NameKey(u, name));
      LeaveRoomOfMore(n, Numbers(u, own, duplicates[1..], more));
      if Stored(u, name) {
        RenamedIsStored(u, own, names[id := name], duplicates[1..], more);
      } else {
        RenamedKeeps(u, own, names[id := name], duplicates[1..], more, id);
      }
    }
  }

  lemma {:induction false} NumbersAreSmall(
    u: Unicode, own: NameRow -> string, duplicates: seq<NameRow>, reserved: set<string>, total: nat)
    requires Lawful(u) && |reserved| + |duplicates| <= total && |Suffix(total + 2)| < MAX_LENGTH
    ensures LeaveRoom(Numbers(u, own, duplicates, reserved))
    decreases |duplicates|
  {
    if duplicates != [] {
      var base := own(duplicates[0]);
      var n := FreeNumber(u, base, reserved);
      var more := reserved + {NameKey(u, Candidate(base, n))};
      Decimal.StrLengthMonotone(n, total + 2);
      NumbersAreSmall(u, own, duplicates[1..], more, total);
      LeaveRoomOfMore(n, Numbers(u, own, duplicates[1..], more));
    }
  }

  lemma OwnNamesAreStored(u: Unicode, own: NameRow -> string, key: NameRow -> string, ordered: seq<NameRow>)
    requires DistinctIds(ordered)
    requires forall row :: row in ordered ==> key(row) == NameKey(u, own(row)) && Stored(u, own(row))
    ensures AllStored(u, BaseNames(own, ordered))
    ensures forall row :: row in Duplicates(key, ordered) ==>
              NameKey(u, own(row)) in Keys(key, ordered) && Stored(u, own(row))
  {
    forall a | a in BaseNames(own, ordered)
      ensures Stored(u, BaseNames(own, ordered)[a])
    {
      var i := RowOf(own, ordered, a);
    }
    DuplicatesAreMembers(key, ordered);
    forall row | row in Duplicates(key, ordered)
      ensures NameKey(u, own(row)) in Keys(key, ordered)
    {
      var i :| 0 <= i < |ordered| && ordered[i] == row;
      assert key(ordered[i]) in Keys(key, ordered);
    }
  }

  lemma DuplicatesAreToRename(u: Unicode, own: NameRow -> string, key: NameRow -> string, ordered: seq<NameRow>)
    requires DistinctIds(ordered)
    requires forall row :: row in ordered ==> key(row) == NameKey(u, own(row)) && Stored(u, own(row))
    ensures ToRename(u, own, Duplicates(key, ordered), Keys(key, ordered)) && AllStored(u, BaseNames(own, ordered))
  {
    DuplicatesAreMembers(key, ordered);
    OwnNamesAreStored(u, own, key, ordered);
  }

  // Every name given passes the rules and is in stored form, exactly when each number given
  // leaves room for a character of its name; and so it always does while the number of rows
  // has no more digits than a suffix has room for.
  lemma NamesAreStored(u: Unicode, rows: seq<NameRow>)
    requires Lawful(u) && DistinctIds(rows)
    ensures AllStored(u, FinalNames(u, rows)) <==> LeaveRoom(NumbersGiven(u, rows))
    ensures |Suffix(|rows| + 2)| < MAX_LENGTH ==> LeaveRoom(NumbersGiven(u, rows))
  {
    var ordered, own, key := ByAge(rows), OwnName(u), KeyOf(u);
    InOrderRows(rows);
    forall row | row in ordered
      ensures Stored(u, own(row))
    {
      BaseIsStored(u, row);
    }
    DuplicatesAreToRename(u, own, key, ordered);
    RenamedIsStored(u, own, BaseNames(own, ordered), Duplicates(key, ordered), Keys(key, ordered));
    KeysAndDuplicatesCount(key, ordered);
    if |Suffix(|rows| + 2)| < MAX_LENGTH {
      NumbersAreSmall(u, own, Duplicates(key, ordered), Keys(key, ordered), |rows|);
    }
  }

  // --- a second run changes nothing --------------------------------------------------------------

  // The rows under the names they were given.
  ghost predicate Renames(rows: seq<NameRow>, rows': seq<NameRow>, names: map<nat, string>) {
    && |rows'| == |rows|
    && forall i :: 0 <= i < |rows| ==> rows'[i].id == rows[i].id && rows[i].id in names && rows'[i].displayName == names[rows[i].id]
  }

  lemma {:induction false} NoDuplicatesAmongDistinct(key: NameRow -> string, ordered: seq<NameRow>)
    requires forall i, j :: 0 <= i < j < |ordered| ==> key(ordered[i]) != key(ordered[j])
    ensures Duplicates(key, ordered) == []
  {
    if ordered != [] {
      var n := |ordered| - 1;
      NoDuplicatesAmongDistinct(key, ordered[..n]);
      forall k | 0 <= k < n
        ensures key(ordered[..n][k]) != key(ordered[n])
      {
        assert ordered[..n][k] == ordered[k];
      }
    }
  }

  // Deduplicating what was deduplicated gives the same names.
  lemma SecondRunChangesNothing(u: Unicode, rows: seq<NameRow>, rows': seq<NameRow>)
    requires Lawful(u) && DistinctIds(rows) && LeaveRoom(NumbersGiven(u, rows))
    requires Renames(rows, rows', FinalNames(u, rows))
    ensures DistinctIds(rows') && FinalNames(u, rows') == FinalNames(u, rows)
  {
    var final, own, key := FinalNames(u, rows), OwnName(u), KeyOf(u);
    NamesAreDistinct(u, rows);
    NamesAreStored(u, rows);
    forall i, j | 0 <= i < j < |rows'|
      ensures rows'[i].id != rows'[j].id
    {
      assert rows[i].id != rows[j].id;
    }
    InOrderRows(rows');
    var ordered := ByAge(rows');
    forall row | row in rows'
      ensures row.id in final && own(row) == final[row.id]
    {
      var i :| 0 <= i < |rows'| && rows'[i] == row;
      assert rows'[i].id == rows[i].id && Stored(u, final[rows[i].id]);
    }
    forall i, j | 0 <= i < j < |ordered|
      ensures key(ordered[i]) != key(ordered[j])
    {
      assert ordered[i] in rows' && ordered[j] in rows';
    }
    NoDuplicatesAmongDistinct(key, ordered);
    forall a | a in final
      ensures exists i :: 0 <= i < |rows| && rows[i].id == a
    {
      OnlyRowsAreNamed(u, rows, a);
    }
    SameNames(own, rows, rows', ordered, final);
  }

  lemma SameNames(
    own: NameRow -> string, rows: seq<NameRow>, rows': seq<NameRow>, ordered: seq<NameRow>, final: map<nat, string>)
    requires DistinctIds(ordered) && forall r :: r in ordered <==> r in rows'
    requires Renames(rows, rows', final)
    requires forall row :: row in ordered ==> row.id in final && own(row) == final[row.id]
    requires forall a :: a in final ==> exists i :: 0 <= i < |rows| && rows[i].id == a
    ensures BaseNames(own, ordered) == final
  {
    forall a | a in BaseNames(own, ordered)
      ensures a in final && BaseNames(own, ordered)[a] == final[a]
    {
      var k := RowOf(own, ordered, a);
      assert ordered[k] in ordered;
    }
    forall a | a in final
      ensures a in BaseNames(own, ordered)
    {
      var i :| 0 <= i < |rows| && rows[i].id == a;
      assert rows'[i].id == a && rows'[i] in ordered;
      var k :| 0 <= k < |ordered| && ordered[k] == rows'[i];
      BaseNamesAt(own, ordered, k);
    }
  }

  lemma OnlyRowsAreNamed(u: Unicode, rows: seq<NameRow>, id: nat)
    requires Lawful(u) && DistinctIds(rows) && id in FinalNames(u, rows)
    ensures exists i :: 0 <= i < |rows| && rows[i].id == id
  {
    var ordered := ByAge(rows);
    InOrderRows(rows);
    StartsSettling(u, OwnName(u), KeyOf(u), ordered);
    RenamedSettles(u, OwnName(u), BaseNames(OwnName(u), ordered), Duplicates(KeyOf(u), ordered), Keys(KeyOf(u), ordered));
    var k := RowOf(OwnName(u), ordered, id);
    assert ordered[k] in rows;
  }

  // --- which number a duplicate gets -------------------------------------------------------------

  // A row's own name always passes. A display name that passes as it stands is kept, one that
  // passes in its stored form is stored, and only one that does not is repaired, from what stands
  // before the at sign of the address where nothing of it is left.
  lemma OwnNameIs(u: Unicode, row: NameRow)
    requires Lawful(u)
    ensures Stored(u, BaseName(u, row))
    ensures Stored(u, row.displayName) ==> BaseName(u, row) == row.displayName
    ensures var name, local := Normalise(u, row.displayName), Repair(u, LocalPart(row.email));
            && (Check(u, name).None? ==> BaseName(u, row) == name)
            && (Check(u, name).Some? && Repair(u, name) != "" ==> BaseName(u, row) == Repair(u, name))
            && (Check(u, name).Some? && Repair(u, name) == "" && local != "" ==> BaseName(u, row) == local)
            && (Check(u, name).Some? && Repair(u, name) == "" && local == "" ==> BaseName(u, row) == "user")
  {
    BaseIsStored(u, row);
  }

  lemma {:induction false} LocalPartIs(email: string)
    ensures LocalPart(email) <= email && '@' !in LocalPart(email)
    ensures |LocalPart(email)| < |email| ==> email[|LocalPart(email)|] == '@'
  {
    if email != "" && email[0] != '@' {
      LocalPartIs(email[1..]);
      assert email == [email[0]] + email[1..];
    }
  }

  // The reserved keys with that of the first free candidate added.
  function WithNameOf(u: Unicode, base: string, reserved: set<string>): set<string>
    requires Lawful(u)
  {
    reserved + {NameKey(u, Candidate(base, FreeNumber(u, base, reserved)))}
  }

  // The reserved keys when the duplicate with this index has its turn.
  function ReservedAt(
    u: Unicode, own: NameRow -> string, duplicates: seq<NameRow>, reserved: set<string>, k: nat): set<string>
    requires Lawful(u) && k <= |duplicates|
    decreases k
  {
    if k == 0 then reserved
    else ReservedAt(u, own, duplicates[1..], WithNameOf(u, own(duplicates[0]), reserved), k - 1)
  }

  // The first duplicate keeps the name its turn gives it while the others have theirs.
  lemma FirstRenamed(
    u: Unicode, own: NameRow -> string, names: map<nat, string>, duplicates: seq<NameRow>, reserved: set<string>)
    requires Lawful(u) && DistinctIds(duplicates) && duplicates != []
    ensures duplicates[0].id in Renamed(u, own, names, duplicates, reserved)
    ensures Renamed(u, own, names, duplicates, reserved)[duplicates[0].id]
            == Candidate(own(duplicates[0]), FreeNumber(u, own(duplicates[0]), reserved))
  {
    var base, rest, id := own(duplicates[0]), duplicates[1..], duplicates[0].id;
    var name := Candidate(base, FreeNumber(u, base, reserved));
    assert forall j :: 0 <= j < |rest| ==> rest[j] == duplicates[j + 1];
    RenamedKeeps(u, own, names[id := name], rest, reserved + {NameKey(u, name)}, id);
  }

  // A duplicate is named by its own name with the first number free when it has its turn.
  lemma {:induction false} RenamedAt(
    u: Unicode, own: NameRow -> string, names: map<nat, string>, duplicates: seq<NameRow>, reserved: set<string>, k: nat)
    requires Lawful(u) && DistinctIds(duplicates) && k < |duplicates|
    ensures duplicates[k].id in Renamed(u, own, names, duplicates, reserved)
    ensures Renamed(u, own, names, duplicates, reserved)[duplicates[k].id]
            == Candidate(own(duplicates[k]),
                         FreeNumber(u, own(duplicates[k]), ReservedAt(u, own, duplicates, reserved, k)))
    decreases k
  {
    if k == 0 {
      FirstRenamed(u, own, names, duplicates, reserved);
    } else {
      var base, rest, id := own(duplicates[0]), duplicates[1..], duplicates[0].id;
      var name := Candidate(base, FreeNumber(u, base, reserved));
      assert forall j :: 0 <= j < |rest| ==> rest[j] == duplicates[j + 1];
      RenamedAt(u, own, names[id := name], rest, WithNameOf(u, base, reserved), k - 1);
    }
  }

  // The index of a row among the duplicates.
  lemma DuplicateIndex(key: NameRow -> string, ordered: seq<NameRow>, row: NameRow) returns (k: nat)
    requires row in Duplicates(key, ordered)
    ensures k < |Duplicates(key, ordered)| && Duplicates(key, ordered)[k] == row
  {
    k :| 0 <= k < |Duplicates(key, ordered)| && Duplicates(key, ordered)[k] == row;
  }

  lemma RowToRename(u: Unicode, rows: seq<NameRow>, row: NameRow) returns (k: nat)
    requires Lawful(u) && DistinctIds(rows) && row in rows && !KeepsName(KeyOf(u), rows, row)
    ensures var duplicates := Duplicates(KeyOf(u), ByAge(rows));
            k < |duplicates| && duplicates[k] == row && DistinctIds(duplicates)
    ensures BaseKey(u, row) in Keys(KeyOf(u), ByAge(rows))
  {
    var ordered, key := ByAge(rows), KeyOf(u);
    InOrderRows(rows);
    var i :| 0 <= i < |ordered| && ordered[i] == row;
    NoOlderHolder(key, rows, i);
    DuplicatesAt(key, ordered, i);
    DuplicatesAreMembers(key, ordered);
    k := DuplicateIndex(key, ordered, row);
    assert key(ordered[i]) in Keys(key, ordered);
  }

  // A row that loses its name gets it back with a number from two on: the whole of it where
  // that fits, and otherwise cut no more than the number needs.
  lemma RenamedRowKeepsItsName(u: Unicode, rows: seq<NameRow>, row: NameRow) returns (n: nat)
    requires Lawful(u) && DistinctIds(rows) && row in rows && !KeepsName(KeyOf(u), rows, row)
    ensures n >= 2 && row.id in FinalNames(u, rows)
    ensures var base, name := BaseName(u, row), FinalNames(u, rows)[row.id];
            && name == Candidate(base, n)
            && (|base| + |Suffix(n)| <= MAX_LENGTH ==> name == base + Suffix(n))
            && (|base| + |Suffix(n)| > MAX_LENGTH >= |Suffix(n)| ==>
                  |name| == MAX_LENGTH && name == base[..MAX_LENGTH - |Suffix(n)|] + Suffix(n))
  {
    var duplicates, reserved := Duplicates(KeyOf(u), ByAge(rows)), Keys(KeyOf(u), ByAge(rows));
    var k := RowToRename(u, rows, row);
    RowIsGiven(u, rows, k);
    n := FreeNumber(u, BaseName(u, row), ReservedAt(u, OwnName(u), duplicates, reserved, k));
    ReservedGrows(u, OwnName(u), duplicates, reserved, 0, k);
    assert BaseKey(u, row) == NameKey(u, Candidate(BaseName(u, row), 1));
    BaseIsStored(u, row);
    CandidateKeepsBase(BaseName(u, row), n);
  }

  // What is reserved after a turn is what was reserved before it and the name given in it.
  lemma {:induction false} ReservedAfter(
    u: Unicode, own: NameRow -> string, duplicates: seq<NameRow>, reserved: set<string>, j: nat)
    requires Lawful(u) && j < |duplicates|
    ensures ReservedAt(u, own, duplicates, reserved, j + 1)
            == WithNameOf(u, own(duplicates[j]), ReservedAt(u, own, duplicates, reserved, j))
    decreases j
  {
    if j > 0 {
      ReservedAfter(u, own, duplicates[1..], WithNameOf(u, own(duplicates[0]), reserved), j - 1);
    }
  }

  lemma {:induction false} ReservedGrows(
    u: Unicode, own: NameRow -> string, duplicates: seq<NameRow>, reserved: set<string>, j: nat, k: nat)
    requires Lawful(u) && j <= k <= |duplicates|
    ensures ReservedAt(u, own, duplicates, reserved, j) <= ReservedAt(u, own, duplicates, reserved, k)
    decreases k - j
  {
    if j < k {
      ReservedAfter(u, own, duplicates, reserved, j);
      ReservedGrows(u, own, duplicates, reserved, j + 1, k);
    }
  }

  lemma GivenNamesStay(
    u: Unicode, own: NameRow -> string, duplicates: seq<NameRow>, reserved: set<string>, j: nat, k: nat)
    requires Lawful(u) && j < k <= |duplicates|
    ensures WithNameOf(u, own(duplicates[j]), ReservedAt(u, own, duplicates, reserved, j))
            <= ReservedAt(u, own, duplicates, reserved, k)
  {
    ReservedAfter(u, own, duplicates, reserved, j);
    ReservedGrows(u, own, duplicates, reserved, j + 1, k);
  }

  // Once a name has been given, the same base gets a later number.
  lemma MoreTakenLaterNumber(u: Unicode, base: string, taken: set<string>, more: set<string>)
    requires Lawful(u) && WithNameOf(u, base, taken) <= more
    ensures FreeNumber(u, base, taken) < FreeNumber(u, base, more)
  {
    var m := FreeNumber(u, base, taken);
    assert forall k :: 1 <= k < m ==> NameKey(u, Candidate(base, k)) in more;
  }

  lemma EarlierGetsTheSmallerNumber(
    u: Unicode, own: NameRow -> string, duplicates: seq<NameRow>, reserved: set<string>, j: nat, k: nat)
    requires Lawful(u) && j < k < |duplicates| && own(duplicates[j]) == own(duplicates[k])
    ensures FreeNumber(u, own(duplicates[j]), ReservedAt(u, own, duplicates, reserved, j))
            < FreeNumber(u, own(duplicates[k]), ReservedAt(u, own, duplicates, reserved, k))
  {
    GivenNamesStay(u, own, duplicates, reserved, j, k);
    MoreTakenLaterNumber(u, own(duplicates[j]), ReservedAt(u, own, duplicates, reserved, j),
                         ReservedAt(u, own, duplicates, reserved, k));
  }

  lemma {:induction false} DuplicatesInOrder(key: NameRow -> string, ordered: seq<NameRow>)
    requires InOrder(ordered) && DistinctIds(ordered)
    ensures InOrder(Duplicates(key, ordered))
  {
    if ordered != [] {
      var n := |ordered| - 1;
      var found := Duplicates(key, ordered[..n]);
      DuplicatesInOrder(key, ordered[..n]);
      DuplicatesAreMembers(key, ordered[..n]);
      forall k | 0 <= k < |found|
        ensures Older(found[k], ordered[n])
      {
        assert found[k] in ordered[..n];
        var i :| 0 <= i < n && ordered[..n][i] == found[k];
        assert Older(ordered[i], ordered[n]);
      }
    }
  }

  // The number the duplicate with this index is given.
  function NumberOf(u: Unicode, rows: seq<NameRow>, k: nat): nat
    requires Lawful(u) && k < |Duplicates(KeyOf(u), ByAge(rows))|
  {
    var duplicates, reserved := Duplicates(KeyOf(u), ByAge(rows)), Keys(KeyOf(u), ByAge(rows));
    FreeNumber(u, BaseName(u, duplicates[k]), ReservedAt(u, OwnName(u), duplicates, reserved, k))
  }

  lemma RowIsGiven(u: Unicode, rows: seq<NameRow>, k: nat)
    requires Lawful(u) && DistinctIds(rows) && k < |Duplicates(KeyOf(u), ByAge(rows))|
    ensures var duplicates := Duplicates(KeyOf(u), ByAge(rows));
            && duplicates[k].id in FinalNames(u, rows)
            && FinalNames(u, rows)[duplicates[k].id] == Candidate(BaseName(u, duplicates[k]), NumberOf(u, rows, k))
            && NumberOf(u, rows, k) >= 1
  {
    var ordered, own := ByAge(rows), OwnName(u);
    InOrderRows(rows);
    DuplicatesAreMembers(KeyOf(u), ordered);
    RenamedAt(u, own, BaseNames(own, ordered), Duplicates(KeyOf(u), ordered), Keys(KeyOf(u), ordered), k);
  }

  lemma OlderComesFirst(rows: seq<NameRow>, j: nat, k: nat)
    requires InOrder(rows) && j < |rows| && k < |rows|
    ensures j < k <==> rows[j].createdAt < rows[k].createdAt
                       || (rows[j].createdAt == rows[k].createdAt && rows[j].id < rows[k].id)
  {
    if j < k {
      assert Older(rows[j], rows[k]);
    } else if k < j {
      assert Older(rows[k], rows[j]);
    }
  }

  lemma NumbersFollowAge(u: Unicode, rows: seq<NameRow>, j: nat, k: nat)
    requires Lawful(u) && DistinctIds(rows)
    requires j < |Duplicates(KeyOf(u), ByAge(rows))| && k < |Duplicates(KeyOf(u), ByAge(rows))|
    requires var duplicates := Duplicates(KeyOf(u), ByAge(rows));
             Older(duplicates[j], duplicates[k]) && BaseName(u, duplicates[j]) == BaseName(u, duplicates[k])
    ensures NumberOf(u, rows, j) < NumberOf(u, rows, k)
  {
    var duplicates := Duplicates(KeyOf(u), ByAge(rows));
    InOrderRows(rows);
    DuplicatesInOrder(KeyOf(u), ByAge(rows));
    OlderComesFirst(duplicates, j, k);
    EarlierGetsTheSmallerNumber(u, OwnName(u), duplicates, Keys(KeyOf(u), ByAge(rows)), j, k);
  }

  // Of two rows that lose the same name the older gets the smaller number.
  lemma OlderGetsTheSmallerNumber(u: Unicode, rows: seq<NameRow>, a: NameRow, b: NameRow) returns (m: nat, n: nat)
    requires Lawful(u) && DistinctIds(rows) && a in rows && b in rows
    requires a.createdAt < b.createdAt || (a.createdAt == b.createdAt && a.id < b.id)
    requires !KeepsName(KeyOf(u), rows, a) && !KeepsName(KeyOf(u), rows, b) && BaseName(u, a) == BaseName(u, b)
    ensures 1 <= m < n && a.id in FinalNames(u, rows) && b.id in FinalNames(u, rows)
    ensures FinalNames(u, rows)[a.id] == Candidate(BaseName(u, a), m)
    ensures FinalNames(u, rows)[b.id] == Candidate(BaseName(u, b), n)
  {
    var j := RowToRename(u, rows, a);
    var k := RowToRename(u, rows, b);
    m, n := NumberOf(u, rows, j), NumberOf(u, rows, k);
    NumbersFollowAge(u, rows, j, k);
    RowIsGiven(u, rows, j);
    RowIsGiven(u, rows, k);
  }
}

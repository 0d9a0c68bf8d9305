// The display-name rules: what a name is stored as, when two names are the same, how a
// refused name is repaired and how a taken one is given a suffix.
module Names {
  import Decimal
  import opened Options

  const MAX_LENGTH := 100

  // The Unicode tables the rules rest on, which this model does not fix: the two normal
  // forms, case folding, the characters no name may contain, and white space.
  datatype Unicode = Unicode(
    nfc: string -> string,
    nfd: string -> string,
    fold: string -> string,
    refused: char -> bool,
    space: char -> bool)

  datatype Refusal = Required | Invisible | TooLong

  // `str.strip`: white space off both ends.
  function LeftStrip(u: Unicode, s: string): string {
    if s != "" && u.space(s[0]) then LeftStrip(u, s[1..]) else s
  }

  function RightStrip(u: Unicode, s: string): string {
    if s != "" && u.space(s[|s| - 1]) then RightStrip(u, s[..|s| - 1]) else s
  }

  function Strip(u: Unicode, s: string): string {
    RightStrip(u, LeftStrip(u, s))
  }

  // The form a name is stored in.
  function Normalise(u: Unicode, raw: string): string {
    u.nfc(Strip(u, raw))
  }

  predicate HasRefused(u: Unicode, s: string) {
    exists i :: 0 <= i < |s| && u.refused(s[i])
  }

  function Check(u: Unicode, name: string): Option<Refusal> {
    if name == "" then Some(Required)
    else if HasRefused(u, name) then Some(Invisible)
    else if |name| > MAX_LENGTH then Some(TooLong)
    else None
  }

  // What two names are compared by: decomposed, folded for case, and composed again.
  function NameKey(u: Unicode, name: string): string {
    u.nfc(u.fold(u.nfd(name)))
  }

  // `s[:stop]`, where a negative stop counts from the end.
  function SliceTo(s: string, stop: int): string {
    var at := if stop < 0 then |s| + stop else stop;
    if at <= 0 then "" else if at >= |s| then s else s[..at]
  }

  function Suffix(n: nat): string {
    " " + Decimal.Str(n)
  }

  // The base itself, then `base 2`, `base 3` and so on, the base cut to make room.
  function Candidate(base: string, n: nat): string
    requires n >= 1
  {
    if n == 1 then base else SliceTo(base, MAX_LENGTH - |Suffix(n)|) + Suffix(n)
  }

  function Kept(u: Unicode, s: string): string {
    if s == "" then "" else (if u.refused(s[0]) then "" else [s[0]]) + Kept(u, s[1..])
  }

  // Normalised, without refused characters, cut to the limit; may be empty.
  function Repair(u: Unicode, raw: string): string {
    Normalise(u, SliceTo(Normalise(u, Kept(u, Normalise(u, raw))), MAX_LENGTH))
  }

  function Provisional(u: Unicode, raw: string, fallback: string): string {
    if Repair(u, raw) != "" then Repair(u, raw)
    else if Repair(u, fallback) != "" then Repair(u, fallback)
    else "user"
  }

  // --- what is taken of the tables ------------------------------------------------------

  predicate EdgeSpace(u: Unicode, s: string) {
    s != "" && (u.space(s[0]) || u.space(s[|s| - 1]))
  }

  // Composing is idempotent and closed under prefixes, and brings in no refused character
  // and no white space at an edge.
  ghost predicate Composes(u: Unicode, s: string, k: nat) {
    && u.nfc(u.nfc(s)) == u.nfc(s)
    && (k <= |s| && u.nfc(s) == s ==> u.nfc(s[..k]) == s[..k])
    && (HasRefused(u, u.nfc(s)) ==> HasRefused(u, s))
    && (EdgeSpace(u, u.nfc(s)) ==> EdgeSpace(u, s))
  }

  // A space and a number at the end stay as they are, in the stored form and in the key.
  ghost predicate KeepsNumber(u: Unicode, s: string, n: nat) {
    && NameKey(u, s + Suffix(n)) == NameKey(u, s) + Suffix(n)
    && (u.nfc(s) == s ==> u.nfc(s + Suffix(n)) == s + Suffix(n))
  }

  // Spaces and digits are allowed, and digits are not white space.
  ghost predicate AllowsNumber(u: Unicode, n: nat) {
    !HasRefused(u, Suffix(n)) && !u.space(Suffix(n)[|Suffix(n)| - 1])
  }

  // The laws the rules rest on, for every string and number.
  ghost predicate Lawful(u: Unicode) {
    && (forall s, k: nat :: Composes(u, s, k))
    && (forall s, n: nat :: KeepsNumber(u, s, n))
    && (forall n: nat :: AllowsNumber(u, n))
    && u.space(' ')
    && u.nfc("user") == "user" && !HasRefused(u, "user") && !EdgeSpace(u, "user")
  }

  // Plain text, where every form is the text itself, is one such set of tables.
  lemma PlainTextIsLawful()
    ensures Lawful(Unicode(s => s, s => s, s => s, c => c == '\n', c => c == ' '))
  {
    var u := Unicode(s => s, s => s, s => s, c => c == '\n', c => c == ' ');
    forall n: nat
      ensures AllowsNumber(u, n)
    {
      assert forall i :: 0 < i < |Suffix(n)| ==> Suffix(n)[i] == Decimal.Str(n)[i - 1];
    }
  }

  // --- stored names ----------------------------------------------------------------------

  // A name the rules accept, in the form they store.
  ghost predicate Stored(u: Unicode, name: string) {
    Check(u, name).None? && Normalise(u, name) == name
  }

  lemma {:induction false} LeftStripped(u: Unicode, s: string)
    ensures var t := LeftStrip(u, s); t == "" || !u.space(t[0])
    ensures exists k :: 0 <= k <= |s| && LeftStrip(u, s) == s[k..]
  {
    if s != "" && u.space(s[0]) {
      LeftStripped(u, s[1..]);
      var k :| 0 <= k <= |s[1..]| && LeftStrip(u, s[1..]) == s[1..][k..];
      assert s[1..][k..] == s[k + 1..];
    } else {
      assert s == s[0..];
    }
  }

  lemma {:induction false} RightStripped(u: Unicode, s: string)
    ensures var t := RightStrip(u, s); t == "" || !u.space(t[|t| - 1])
    ensures exists k :: 0 <= k <= |s| && RightStrip(u, s) == s[..k]
  {
    if s != "" && u.space(s[|s| - 1]) {
      RightStripped(u, s[..|s| - 1]);
      var k :| 0 <= k <= |s[..|s| - 1]| && RightStrip(u, s[..|s| - 1]) == s[..|s| - 1][..k];
      assert s[..|s| - 1][..k] == s[..k];
    } else {
      assert s == s[..|s|];
    }
  }

  // What is left of a string whose start is no white space is one of its prefixes.
  lemma StripIsPrefix(u: Unicode, s: string)
    requires s == "" || !u.space(s[0])
    ensures !EdgeSpace(u, Strip(u, s))
    ensures exists k :: 0 <= k <= |s| && Strip(u, s) == s[..k]
  {
    RightStripped(u, s);
  }

  lemma PartHasNoMore(u: Unicode, s: string, k: nat, m: nat)
    requires k <= m <= |s| && HasRefused(u, s[k..m])
    ensures HasRefused(u, s)
  {
    var i :| 0 <= i < |s[k..m]| && u.refused(s[k..m][i]);
    assert u.refused(s[k + i]);
  }

  lemma {:induction false} LeftStripKeeps(u: Unicode, s: string)
    ensures HasRefused(u, LeftStrip(u, s)) ==> HasRefused(u, s)
  {
    if s != "" && u.space(s[0]) {
      LeftStripKeeps(u, s[1..]);
      if HasRefused(u, s[1..]) {
        assert s[1..|s|] == s[1..];
        PartHasNoMore(u, s, 1, |s|);
      }
    }
  }

  lemma RightStripKeeps(u: Unicode, s: string)
    ensures HasRefused(u, RightStrip(u, s)) ==> HasRefused(u, s)
    ensures s == "" || !u.space(s[0]) ==> !EdgeSpace(u, RightStrip(u, s))
  {
    RightStripped(u, s);
    var k :| 0 <= k <= |s| && RightStrip(u, s) == s[..k];
    if HasRefused(u, RightStrip(u, s)) {
      assert s[0..k] == s[..k];
      PartHasNoMore(u, s, 0, k);
    }
  }

  lemma StripLeavesNoEdge(u: Unicode, s: string)
    ensures !EdgeSpace(u, Strip(u, s))
    ensures HasRefused(u, Strip(u, s)) ==> HasRefused(u, s)
  {
    LeftStripped(u, s);
    RightStripKeeps(u, LeftStrip(u, s));
    LeftStripKeeps(u, s);
  }

  lemma NoEdgeIsStripped(u: Unicode, s: string)
    requires !EdgeSpace(u, s)
    ensures Strip(u, s) == s
  {
  }

  // Storing is idempotent, and brings in no refused character.
  lemma NormaliseIsIdempotent(u: Unicode, raw: string)
    requires Lawful(u)
    ensures Normalise(u, Normalise(u, raw)) == Normalise(u, raw)
    ensures !EdgeSpace(u, Normalise(u, raw)) && u.nfc(Normalise(u, raw)) == Normalise(u, raw)
    ensures HasRefused(u, Normalise(u, raw)) ==> HasRefused(u, raw)
  {
    StripLeavesNoEdge(u, raw);
    assert Composes(u, Strip(u, raw), 0);
    NoEdgeIsStripped(u, Normalise(u, raw));
  }

  lemma {:induction false} KeptHasNoneRefused(u: Unicode, s: string)
    ensures !HasRefused(u, Kept(u, s))
  {
    if s != "" {
      KeptHasNoneRefused(u, s[1..]);
    }
  }

  lemma PrefixHasNoneRefused(u: Unicode, s: string, k: nat)
    requires k <= |s| && !HasRefused(u, s)
    ensures !HasRefused(u, s[..k])
  {
  }

  // A repaired name is empty or acceptable, and in its stored form.
  lemma RepairedIsStored(u: Unicode, raw: string)
    requires Lawful(u) && Repair(u, raw) != ""
    ensures Stored(u, Repair(u, raw))
  {
    var kept := Kept(u, Normalise(u, raw));
    KeptHasNoneRefused(u, Normalise(u, raw));
    NormaliseIsIdempotent(u, kept);
    var name := Normalise(u, kept);
    var cut := SliceTo(name, MAX_LENGTH);
    var k := if |name| < MAX_LENGTH then |name| else MAX_LENGTH;
    assert cut == name[..k];
    PrefixHasNoneRefused(u, name, k);
    NormaliseIsIdempotent(u, cut);
    StripIsPrefix(u, cut);
    var m :| 0 <= m <= |cut| && Strip(u, cut) == cut[..m];
    assert Composes(u, name, k) && Composes(u, cut, m);
  }

  // A first sign-in's name always passes.
  lemma ProvisionalIsStored(u: Unicode, raw: string, fallback: string)
    requires Lawful(u)
    ensures Stored(u, Provisional(u, raw, fallback))
  {
    if Repair(u, raw) != "" {
      RepairedIsStored(u, raw);
    } else if Repair(u, fallback) != "" {
      RepairedIsStored(u, fallback);
    } else {
      NoEdgeIsStripped(u, "user");
    }
  }

  // --- suffixes ----------------------------------------------------------------------------

  // A candidate fits the limit exactly when its suffix does.
  lemma CandidateFits(base: string, n: nat)
    requires |base| <= MAX_LENGTH && n >= 2
    ensures |Candidate(base, n)| <= MAX_LENGTH <==> |Suffix(n)| <= MAX_LENGTH
  {
  }

  lemma HasRefusedOfSum(u: Unicode, a: string, b: string)
    requires !HasRefused(u, a) && !HasRefused(u, b)
    ensures !HasRefused(u, a + b)
  {
    forall i | 0 <= i < |a + b|
      ensures !u.refused((a + b)[i])
    {
      assert (a + b)[i] == if i < |a| then a[i] else b[i - |a|];
    }
  }

  lemma RoomyCandidateIsStored(u: Unicode, base: string, n: nat)
    requires Lawful(u) && Stored(u, base) && n >= 2 && |Suffix(n)| < MAX_LENGTH
    ensures Stored(u, Candidate(base, n))
  {
    var k := if MAX_LENGTH - |Suffix(n)| < |base| then MAX_LENGTH - |Suffix(n)| else |base|;
    var cut := base[..k];
    assert Candidate(base, n) == cut + Suffix(n);
    PrefixHasNoneRefused(u, base, k);
    assert AllowsNumber(u, n);
    HasRefusedOfSum(u, cut, Suffix(n));
    NormaliseIsIdempotent(u, base);
    var name := cut + Suffix(n);
    assert name[0] == base[0] && name[|name| - 1] == Suffix(n)[|Suffix(n)| - 1];
    NoEdgeIsStripped(u, name);
    assert Composes(u, base, k) && KeepsNumber(u, cut, n);
  }

  // A suffix that leaves no room starts the name with its space, or makes it too long.
  lemma CrowdedCandidateIsNot(u: Unicode, base: string, n: nat)
    requires Lawful(u) && n >= 2 && |Suffix(n)| >= MAX_LENGTH
    ensures !Stored(u, Candidate(base, n))
  {
    var name := Candidate(base, n);
    if |Suffix(n)| == MAX_LENGTH {
      assert name == Suffix(n);
      assert EdgeSpace(u, name);
      NormaliseIsIdempotent(u, name);
    } else {
      assert |name| > MAX_LENGTH;
    }
  }

  // A candidate of a stored name is a stored name exactly when its suffix leaves room for a
  // character of the base.
  lemma CandidateIsStored(u: Unicode, base: string, n: nat)
    requires Lawful(u) && Stored(u, base) && n >= 2
    ensures Stored(u, Candidate(base, n)) <==> |Suffix(n)| < MAX_LENGTH
  {
    if |Suffix(n)| < MAX_LENGTH {
      RoomyCandidateIsStored(u, base, n);
    } else {
      CrowdedCandidateIsNot(u, base, n);
    }
  }

  // Where the last space stands tells a suffix from what it is added to.
  lemma SuffixSettles(a: string, b: string, m: nat, n: nat)
    requires a + Suffix(m) == b + Suffix(n)
    ensures m == n
  {
    var p, q := Decimal.Str(m), Decimal.Str(n);
    var s := a + Suffix(m);
    assert s[|s| - |p| - 1] == ' ' && s[|s| - |q| - 1] == ' ';
    assert forall i :: |s| - |p| <= i < |s| ==> s[i] == p[i - (|s| - |p|)];
    assert forall i :: |s| - |q| <= i < |s| ==> s[i] == q[i - (|s| - |q|)];
    assert |p| == |q|;
    assert p == s[|s| - |p|..] == q;
    Decimal.StrInjective(m, n);
  }

  // Suffixed candidates never share a key, however the base is cut.
  lemma SuffixedKeysDiffer(u: Unicode, base: string, m: nat, n: nat)
    requires Lawful(u) && m >= 2 && n >= 2 && m != n
    ensures NameKey(u, Candidate(base, m)) != NameKey(u, Candidate(base, n))
  {
    var a, b := SliceTo(base, MAX_LENGTH - |Suffix(m)|), SliceTo(base, MAX_LENGTH - |Suffix(n)|);
    assert KeepsNumber(u, a, m) && KeepsNumber(u, b, n);
    if NameKey(u, a) + Suffix(m) == NameKey(u, b) + Suffix(n) {
      SuffixSettles(NameKey(u, a), NameKey(u, b), m, n);
    }
  }

  ghost predicate AllTaken(u: Unicode, base: string, taken: set<string>, n: nat) {
    forall k :: 2 <= k < n ==> NameKey(u, Candidate(base, k)) in taken
  }

  // As many suffixed candidates as are taken need that many taken keys.
  lemma {:induction false} Pigeonhole(u: Unicode, base: string, taken: set<string>, n: nat)
    requires Lawful(u) && n >= 2 && AllTaken(u, base, taken, n)
    ensures n - 2 <= |taken|
  {
    if n > 2 {
      var key := NameKey(u, Candidate(base, n - 1));
      forall k | 2 <= k < n - 1
        ensures NameKey(u, Candidate(base, k)) in taken - {key}
      {
        SuffixedKeysDiffer(u, base, k, n - 1);
      }
      Pigeonhole(u, base, taken - {key}, n - 1);
    }
  }

  // The number of the first suffixed candidate from n on whose key is free.
  function FirstSuffix(u: Unicode, base: string, taken: set<string>, n: nat): (m: nat)
    requires Lawful(u) && n >= 2 && AllTaken(u, base, taken, n)
    ensures n <= m <= |taken| + 2 && NameKey(u, Candidate(base, m)) !in taken && AllTaken(u, base, taken, m)
    decreases |taken| + 2 - n
  {
    Pigeonhole(u, base, taken, n);
    if NameKey(u, Candidate(base, n)) !in taken then n
    else
      Pigeonhole(u, base, taken, n + 1);
      FirstSuffix(u, base, taken, n + 1)
  }

  function FreeNumber(u: Unicode, base: string, taken: set<string>): (m: nat)
    requires Lawful(u)
    ensures 1 <= m <= |taken| + 2 && NameKey(u, Candidate(base, m)) !in taken
    ensures forall k :: 1 <= k < m ==> NameKey(u, Candidate(base, k)) in taken
  {
    if NameKey(u, base) !in taken then 1 else FirstSuffix(u, base, taken, 2)
  }

  // The first candidate whose key is not taken, found within |taken| + 2 candidates.
  method FirstFree(u: Unicode, base: string, taken: set<string>) returns (name: string)
    requires Lawful(u)
    ensures name == Candidate(base, FreeNumber(u, base, taken))
    ensures NameKey(u, name) !in taken
  {
    if NameKey(u, base) !in taken {
      return base;
    }
    var n := 2;
    while NameKey(u, Candidate(base, n)) in taken
      invariant n >= 2 && AllTaken(u, base, taken, n) && n <= FirstSuffix(u, base, taken, 2)
      decreases FirstSuffix(u, base, taken, 2) - n
    {
      n := n + 1;
    }
    name := Candidate(base, n);
  }

  // --- what a name keeps -----------------------------------------------------------------------

  // The rules in full: not empty, no refused character, and at most a hundred characters.
  lemma CheckExactly(u: Unicode, name: string)
    ensures Check(u, name).None? <==> 1 <= |name| <= 100 && forall i :: 0 <= i < |name| ==> !u.refused(name[i])
    ensures Check(u, name) == Some(Required) <==> name == ""
    ensures Check(u, name) == Some(TooLong) <==> |name| > 100 && forall i :: 0 <= i < |name| ==> !u.refused(name[i])
  {
  }

  ghost predicate AllSpace(u: Unicode, s: string) {
    forall i :: 0 <= i < |s| ==> u.space(s[i])
  }

  // What stripping leaves is the text between white space and white space.
  ghost predicate IsStripped(u: Unicode, s: string, t: string) {
    exists before: string, after: string :: s == before + t + after && AllSpace(u, before) && AllSpace(u, after)
  }

  lemma {:induction false} LeftStripTakesSpace(u: Unicode, s: string) returns (before: string)
    ensures s == before + LeftStrip(u, s) && AllSpace(u, before)
  {
    if s != "" && u.space(s[0]) {
      var rest := LeftStripTakesSpace(u, s[1..]);
      before := [s[0]] + rest;
      assert s == [s[0]] + s[1..];
    } else {
      before := "";
    }
  }

  lemma {:induction false} RightStripTakesSpace(u: Unicode, s: string) returns (after: string)
    ensures s == RightStrip(u, s) + after && AllSpace(u, after)
  {
    if s != "" && u.space(s[|s| - 1]) {
      var rest := RightStripTakesSpace(u, s[..|s| - 1]);
      after := rest + [s[|s| - 1]];
      assert s == s[..|s| - 1] + [s[|s| - 1]];
    } else {
      after := "";
    }
  }

  // Stripping takes white space off both ends, all of it and nothing else.
  lemma StripTakesOnlySpace(u: Unicode, s: string)
    ensures IsStripped(u, s, Strip(u, s)) && !EdgeSpace(u, Strip(u, s))
  {
    var before := LeftStripTakesSpace(u, s);
    var after := RightStripTakesSpace(u, LeftStrip(u, s));
    StripLeavesNoEdge(u, s);
    assert s == before + Strip(u, s) + after;
  }

  // Names share a key exactly if they are the same once decomposed, case folded and recomposed.
  lemma FoldedAlikeShareAKey(u: Unicode, a: string, b: string)
    ensures NameKey(u, a) == NameKey(u, b) <==> u.nfc(u.fold(u.nfd(a))) == u.nfc(u.fold(u.nfd(b)))
    ensures u.fold(u.nfd(a)) == u.fold(u.nfd(b)) ==> NameKey(u, a) == NameKey(u, b)
  {
  }

  lemma {:induction false} KeptOfSum(u: Unicode, a: string, b: string)
    ensures Kept(u, a + b) == Kept(u, a) + Kept(u, b)
  {
    if a == "" {
      assert a + b == b;
    } else {
      assert (a + b)[1..] == a[1..] + b;
      KeptOfSum(u, a[1..], b);
    }
  }

  // Dropping refused characters keeps every other one, as often and where it stood.
  lemma {:induction false} KeptKeepsTheRest(u: Unicode, s: string, c: char)
    ensures multiset(Kept(u, s))[c] == if u.refused(c) then 0 else multiset(s)[c]
  {
    if s != "" {
      assert s == [s[0]] + s[1..];
      KeptKeepsTheRest(u, s[1..], c);
    }
  }

  lemma {:induction false} KeptIsAll(u: Unicode, s: string)
    requires !HasRefused(u, s)
    ensures Kept(u, s) == s
  {
    if s != "" {
      assert forall i :: 0 <= i < |s[1..]| ==> s[1..][i] == s[i + 1];
      KeptIsAll(u, s[1..]);
      assert s == [s[0]] + s[1..];
    }
  }

  // A name the rules accept as it is stored is not repaired at all.
  lemma RepairLeavesGoodNames(u: Unicode, raw: string)
    requires Lawful(u) && Check(u, Normalise(u, raw)).None?
    ensures Repair(u, raw) == Normalise(u, raw)
  {
    var name := Normalise(u, raw);
    NormaliseIsIdempotent(u, raw);
    KeptIsAll(u, name);
    assert name[..|name|] == name;
  }

  // The raw name comes before the fallback, and the fallback before "user": a later one is
  // taken only where nothing is left of those before it.
  lemma RawComesFirst(u: Unicode, raw: string, fallback: string)
    ensures Repair(u, raw) != "" ==> Provisional(u, raw, fallback) == Repair(u, raw)
    ensures Repair(u, raw) == "" && Repair(u, fallback) != "" ==> Provisional(u, raw, fallback) == Repair(u, fallback)
    ensures Repair(u, raw) == "" && Repair(u, fallback) == "" ==> Provisional(u, raw, fallback) == "user"
  {
  }

  // A candidate is the base with its number, whole where it fits; where it does not, the base
  // is cut just so that the whole is as long as may be.
  lemma CandidateKeepsBase(base: string, n: nat)
    requires n >= 2 && |base| <= MAX_LENGTH
    ensures |base| + |Suffix(n)| <= MAX_LENGTH ==> Candidate(base, n) == base + Suffix(n)
    ensures |base| + |Suffix(n)| > MAX_LENGTH >= |Suffix(n)| ==>
              |Candidate(base, n)| == MAX_LENGTH && Candidate(base, n) == base[..MAX_LENGTH - |Suffix(n)|] + Suffix(n)
    ensures Candidate(base, 1) == base && Suffix(n) == " " + Decimal.Str(n)
  {
  }
}

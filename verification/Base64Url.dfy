// base64url, section 5 of RFC 4648: the printer with its padding, and the lenient reader of
// the standard library, which skips what is not in the alphabet.
module Base64Url {
  import opened Options
  import opened Utf8
  import opened Division

  function Symbol(v: nat): (c: char)
    requires v < 64
    ensures c != '=' && (c as int) < 128
  {
    if v < 26 then (65 + v) as char
    else if v < 52 then (97 + v - 26) as char
    else if v < 62 then (48 + v - 52) as char
    else if v == 62 then '-'
    else '_'
  }

  // The reader takes the plain alphabet's two last symbols as well.
  function ValueOf(c: char): (v: Option<nat>)
    ensures v.Some? ==> v.value < 64
  {
    if 'A' <= c <= 'Z' then Some(c as int - 65)
    else if 'a' <= c <= 'z' then Some(c as int - 97 + 26)
    else if '0' <= c <= '9' then Some(c as int - 48 + 52)
    else if c == '-' || c == '+' then Some(62)
    else if c == '_' || c == '/' then Some(63)
    else None
  }

  lemma SymbolRoundTrip(v: nat)
    requires v < 64
    ensures ValueOf(Symbol(v)) == Some(v)
  {
  }

  function Print(bytes: seq<Byte>): string {
    if bytes == [] then ""
    else if |bytes| == 1 then [Symbol(bytes[0] / 4), Symbol(bytes[0] % 4 * 16), '=', '=']
    else if |bytes| == 2 then
      [Symbol(bytes[0] / 4), Symbol(bytes[0] % 4 * 16 + bytes[1] / 16), Symbol(bytes[1] % 16 * 4), '=']
    else
      [Symbol(bytes[0] / 4), Symbol(bytes[0] % 4 * 16 + bytes[1] / 16),
       Symbol(bytes[1] % 16 * 4 + bytes[2] / 64), Symbol(bytes[2] % 64)]
      + Print(bytes[3..])
  }

  // `rstrip("=")`.
  function WithoutPadding(s: string): string {
    if s != "" && s[|s| - 1] == '=' then WithoutPadding(s[..|s| - 1]) else s
  }

  function Padding(n: nat): string {
    seq(n, _ => '=')
  }

  // `cursor + "=" * (-len(cursor) % 4)`.
  function Repadded(s: string): string {
    s + Padding((4 - |s| % 4) % 4)
  }

  // The reader, by where it stands in a group of four: the bits left over, and the padding
  // seen since the last symbol. Enough padding ends the text.
  function Scan(s: string, at: nat, left: nat, pads: nat): Option<seq<Byte>>
    requires at < 4 && (at == 1 ==> left < 64) && (at == 2 ==> left < 16) && (at == 3 ==> left < 4)
  {
    if s == "" then if at == 0 then Some([]) else None
    else if s[0] == '=' then
      if at >= 2 && at + pads + 1 >= 4 then Some([])
      else Scan(s[1..], at, left, if at >= 2 then pads + 1 else pads)
    else
      var symbol := ValueOf(s[0]);
      if symbol.None? then Scan(s[1..], at, left, pads)
      else
        var v := symbol.value;
        if at == 0 then Scan(s[1..], 1, v, 0)
        else if at == 1 then After(left * 4 + v / 16, Scan(s[1..], 2, v % 16, 0))
        else if at == 2 then After(left * 16 + v / 4, Scan(s[1..], 3, v % 4, 0))
        else After(left * 64 + v, Scan(s[1..], 0, 0, 0))
  }

  function After(b: Byte, rest: Option<seq<Byte>>): Option<seq<Byte>> {
    if rest.None? then None else Some([b] + rest.value)
  }

  // Text outside ASCII is refused before it is read.
  function Read(s: string): Option<seq<Byte>> {
    if forall i :: 0 <= i < |s| ==> (s[i] as int) < 128 then Scan(s, 0, 0, 0) else None
  }

  // One symbol moves the reader one place on.
  lemma ScanSymbol(v: nat, rest: string, at: nat, left: nat)
    requires v < 64 && at < 4 && (at == 1 ==> left < 64) && (at == 2 ==> left < 16) && (at == 3 ==> left < 4)
    ensures Scan([Symbol(v)] + rest, at, left, 0)
            == if at == 0 then Scan(rest, 1, v, 0)
               else if at == 1 then After(left * 4 + v / 16, Scan(rest, 2, v % 16, 0))
               else if at == 2 then After(left * 16 + v / 4, Scan(rest, 3, v % 4, 0))
               else After(left * 64 + v, Scan(rest, 0, 0, 0))
  {
    SymbolRoundTrip(v);
    assert ([Symbol(v)] + rest)[1..] == rest;
  }

  // The first two symbols of a group carry its first byte.
  lemma ScanFirst(b: Byte, high: nat, rest: string)
    requires high < 16
    ensures Scan([Symbol(b / 4)] + ([Symbol(b % 4 * 16 + high)] + rest), 0, 0, 0) == After(b, Scan(rest, 2, high, 0))
  {
    var v := b % 4 * 16 + high;
    assert v / 16 == b % 4 && v % 16 == high && b / 4 * 4 + b % 4 == b;
    ScanSymbol(b / 4, [Symbol(v)] + rest, 0, 0);
    ScanSymbol(v, rest, 1, b / 4);
  }

  // The next symbol completes the second byte.
  lemma ScanSecond(b: Byte, high: nat, rest: string)
    requires high < 4
    ensures Scan([Symbol(b % 16 * 4 + high)] + rest, 2, b / 16, 0) == After(b, Scan(rest, 3, high, 0))
  {
    var v := b % 16 * 4 + high;
    assert v / 4 == b % 16 && v % 4 == high && b / 16 * 16 + b % 16 == b;
    ScanSymbol(v, rest, 2, b / 16);
  }

  lemma ScanThird(b: Byte, rest: string)
    ensures Scan([Symbol(b % 64)] + rest, 3, b / 64, 0) == After(b, Scan(rest, 0, 0, 0))
  {
    ScanSymbol(b % 64, rest, 3, b / 64);
  }

  lemma PaddingEnds()
    ensures Scan(['='], 3, 0, 0) == Some([]) && Scan(['=', '='], 2, 0, 0) == Some([])
  {
    assert ['=', '='][1..] == ['='];
    assert Scan(['='], 2, 0, 1) == Some([]);
  }

  lemma {:induction false} ScanPrinted(bytes: seq<Byte>)
    ensures Scan(Print(bytes), 0, 0, 0) == Some(bytes)
  {
    if bytes != [] {
      PaddingEnds();
      if |bytes| == 1 {
        ScanFirst(bytes[0], 0, ['=', '=']);
        assert Print(bytes) == [Symbol(bytes[0] / 4)] + ([Symbol(bytes[0] % 4 * 16 + 0)] + ['=', '=']);
        assert After(bytes[0], Some([])) == Some([bytes[0]] + []) && bytes == [bytes[0]] + [];
      } else if |bytes| == 2 {
        ScanPair(bytes[0], bytes[1]);
        assert bytes == [bytes[0], bytes[1]];
      } else {
        ScanPrinted(bytes[3..]);
        ScanGroup(bytes[0], bytes[1], bytes[2], Print(bytes[3..]));
        assert bytes == [bytes[0]] + ([bytes[1]] + ([bytes[2]] + bytes[3..]));
      }
    }
  }

  lemma ScanPair(a: Byte, b: Byte)
    ensures Scan(Print([a, b]), 0, 0, 0) == Some([a, b])
  {
    PaddingEnds();
    var rest := [Symbol(b % 16 * 4 + 0)] + ['='];
    ScanFirst(a, b / 16, rest);
    ScanSecond(b, 0, ['=']);
    assert Print([a, b]) == [Symbol(a / 4)] + ([Symbol(a % 4 * 16 + b / 16)] + rest);
    assert After(a, After(b, Some([]))) == Some([a] + ([b] + [])) && [a, b] == [a] + ([b] + []);
  }

  lemma JoinFour(p: char, q: char, r: char, t: char, rest: string)
    ensures [p, q, r, t] + rest == [p] + ([q] + ([r] + ([t] + rest)))
  {
  }

  lemma ScanGroup(a: Byte, b: Byte, c: Byte, rest: string)
    ensures Scan([Symbol(a / 4), Symbol(a % 4 * 16 + b / 16), Symbol(b % 16 * 4 + c / 64), Symbol(c % 64)] + rest, 0, 0, 0)
            == After(a, After(b, After(c, Scan(rest, 0, 0, 0))))
  {
    JoinFour(Symbol(a / 4), Symbol(a % 4 * 16 + b / 16), Symbol(b % 16 * 4 + c / 64), Symbol(c % 64), rest);
    ScanSymbols(a, b, c, rest);
  }

  lemma ScanSymbols(a: Byte, b: Byte, c: Byte, rest: string)
    ensures Scan([Symbol(a / 4)] + ([Symbol(a % 4 * 16 + b / 16)] + ([Symbol(b % 16 * 4 + c / 64)] + ([Symbol(c % 64)] + rest))),
                 0, 0, 0)
            == After(a, After(b, After(c, Scan(rest, 0, 0, 0))))
  {
    var third := [Symbol(c % 64)] + rest;
    ScanFirst(a, b / 16, [Symbol(b % 16 * 4 + c / 64)] + third);
    ScanSecond(b, c / 64, third);
    ScanThird(c, rest);
  }

  // The printed text without its padding, and how much padding it has.
  function Body(bytes: seq<Byte>): string {
    if bytes == [] then ""
    else if |bytes| == 1 then [Symbol(bytes[0] / 4), Symbol(bytes[0] % 4 * 16)]
    else if |bytes| == 2 then [Symbol(bytes[0] / 4), Symbol(bytes[0] % 4 * 16 + bytes[1] / 16), Symbol(bytes[1] % 16 * 4)]
    else
      [Symbol(bytes[0] / 4), Symbol(bytes[0] % 4 * 16 + bytes[1] / 16),
       Symbol(bytes[1] % 16 * 4 + bytes[2] / 64), Symbol(bytes[2] % 64)]
      + Body(bytes[3..])
  }

  function PadCount(n: nat): nat {
    (3 - n % 3) % 3
  }

  predicate IsPlain(s: string) {
    forall i :: 0 <= i < |s| ==> s[i] != '=' && (s[i] as int) < 128
  }

  lemma {:induction false} BodyIsPlain(bytes: seq<Byte>)
    ensures IsPlain(Body(bytes)) && (|Body(bytes)| + PadCount(|bytes|)) % 4 == 0
  {
    if |bytes| >= 3 {
      BodyIsPlain(bytes[3..]);
      PlainJoin(Symbol(bytes[0] / 4), Symbol(bytes[0] % 4 * 16 + bytes[1] / 16),
                Symbol(bytes[1] % 16 * 4 + bytes[2] / 64), Symbol(bytes[2] % 64), Body(bytes[3..]));
      PadsRepeat(|bytes|, |Body(bytes[3..])|);
    }
  }

  lemma PlainJoin(p: char, q: char, r: char, t: char, rest: string)
    requires IsPlain([p, q, r, t]) && IsPlain(rest)
    ensures IsPlain([p, q, r, t] + rest)
  {
  }

  lemma PadsRepeat(n: nat, length: nat)
    requires n >= 3 && (length + PadCount(n - 3)) % 4 == 0
    ensures (4 + length + PadCount(n)) % 4 == 0
  {
  }

  lemma {:induction false} PrintedIsPadded(bytes: seq<Byte>)
    ensures Print(bytes) == Body(bytes) + Padding(PadCount(|bytes|))
  {
    if |bytes| >= 3 {
      PrintedIsPadded(bytes[3..]);
      assert PadCount(|bytes|) == PadCount(|bytes[3..]|);
    } else if |bytes| == 1 {
      assert Padding(2) == ['=', '='];
    } else if |bytes| == 2 {
      assert Padding(1) == ['='];
    }
  }

  lemma {:induction false} StripPadding(s: string, k: nat)
    requires IsPlain(s)
    ensures WithoutPadding(s + Padding(k)) == s
  {
    if k == 0 {
      assert s + Padding(0) == s;
    } else {
      assert (s + Padding(k))[..|s + Padding(k)| - 1] == s + Padding(k - 1);
      StripPadding(s, k - 1);
    }
  }

  // Taking the padding off and working it out again from the length changes nothing.
  lemma RepaddingRestores(bytes: seq<Byte>)
    ensures Repadded(WithoutPadding(Print(bytes))) == Print(bytes)
  {
    BodyIsPlain(bytes);
    PrintedIsPadded(bytes);
    StripPadding(Body(bytes), PadCount(|bytes|));
    PaddingFromLength(|Body(bytes)|, PadCount(|bytes|));
  }

  lemma PaddingFromLength(n: nat, k: nat)
    requires (n + k) % 4 == 0 && k < 3
    ensures (4 - n % 4) % 4 == k
  {
  }

  // What is printed without padding is read back.
  lemma RoundTrip(bytes: seq<Byte>)
    ensures Read(Repadded(WithoutPadding(Print(bytes)))) == Some(bytes)
  {
    RepaddingRestores(bytes);
    BodyIsPlain(bytes);
    PrintedIsPadded(bytes);
    ScanPrinted(bytes);
  }

  // --- what is printed ----------------------------------------------------------------------

  // Table 2 of RFC 4648, by the ends of its four runs and the steps inside them.
  lemma AlphabetIs(v: nat)
    requires v < 64
    ensures Symbol(0) == 'A' && Symbol(26) == 'a' && Symbol(52) == '0' && Symbol(62) == '-' && Symbol(63) == '_'
    ensures v !in {25, 51, 61, 62, 63} ==> Symbol(v + 1) as int == Symbol(v) as int + 1
  {
  }

  predicate IsUrlSafe(s: string) {
    forall i :: 0 <= i < |s| ==>
      'A' <= s[i] <= 'Z' || 'a' <= s[i] <= 'z' || '0' <= s[i] <= '9' || s[i] == '-' || s[i] == '_'
  }

  // The bytes in groups of three, the last filled up with zeros.
  function Octet(bytes: seq<Byte>, k: nat): Byte {
    if k < |bytes| then bytes[k] else 0
  }

  function Group24(bytes: seq<Byte>, k: nat): nat {
    Octet(bytes, k) * 0x1_0000 + Octet(bytes, k + 1) * 0x100 + Octet(bytes, k + 2)
  }

  // Each group read as a number of 24 bits, and that as four of six bits.
  function Sextet(bytes: seq<Byte>, i: nat): (v: nat)
    ensures v < 64
  {
    var n := Group24(bytes, i / 4 * 3);
    (if i % 4 == 0 then n / 0x4_0000 else if i % 4 == 1 then n / 0x1000 else if i % 4 == 2 then n / 0x40 else n) % 64
  }

  lemma SextetsOfGroup(a: Byte, b: Byte, c: Byte)
    ensures var n := a * 0x1_0000 + b * 0x100 + c;
            && n / 0x4_0000 % 64 == a / 4 && n / 0x1000 % 64 == a % 4 * 16 + b / 16
            && n / 0x40 % 64 == b % 16 * 4 + c / 64 && n % 64 == c % 64
  {
    var n, p, q := a * 0x1_0000 + b * 0x100 + c, a % 4 * 16 + b / 16, b % 16 * 4 + c / 64;
    Divides(n, 0x40, (a / 4 * 64 + p) * 64 + q, c % 64);
    Divides(n, 0x1000, a / 4 * 64 + p, q * 64 + c % 64);
    Divides(n, 0x4_0000, a / 4, (p * 64 + q) * 64 + c % 64);
    Divides((a / 4 * 64 + p) * 64 + q, 64, a / 4 * 64 + p, q);
    Divides(a / 4 * 64 + p, 64, a / 4, p);
  }

  lemma {:induction false} BodySpellsSextets(bytes: seq<Byte>, i: nat)
    requires i < |Body(bytes)|
    ensures Body(bytes)[i] == Symbol(Sextet(bytes, i))
    decreases |bytes|
  {
    if i >= 4 {
      BodySpellsSextets(bytes[3..], i - 4);
      SextetOfRest(bytes, i);
    } else {
      FirstGroup(bytes, i);
    }
  }

  // What the first group is spelled as, each symbol of the body being one of these.
  function FirstSextets(bytes: seq<Byte>): (vs: seq<nat>)
    ensures |vs| == 4 && forall v :: v in vs ==> v < 64
  {
    var a, b, c := Octet(bytes, 0), Octet(bytes, 1), Octet(bytes, 2);
    [a / 4, a % 4 * 16 + b / 16, b % 16 * 4 + c / 64, c % 64]
  }

  lemma FirstSymbols(bytes: seq<Byte>, i: nat)
    requires i < 4 && i < |Body(bytes)|
    ensures Body(bytes)[i] == Symbol(FirstSextets(bytes)[i])
  {
  }

  lemma FirstGroup(bytes: seq<Byte>, i: nat)
    requires i < 4 && i < |Body(bytes)|
    ensures Body(bytes)[i] == Symbol(Sextet(bytes, i))
  {
    FirstSymbols(bytes, i);
    SextetsOfGroup(Octet(bytes, 0), Octet(bytes, 1), Octet(bytes, 2));
    assert FirstSextets(bytes)[i] == Sextet(bytes, i);
  }

  lemma SextetOfRest(bytes: seq<Byte>, i: nat)
    requires i >= 4 && |bytes| >= 3
    ensures Sextet(bytes[3..], i - 4) == Sextet(bytes, i)
  {
    var k := (i - 4) / 4 * 3;
    assert k + 3 == i / 4 * 3;
    assert Group24(bytes[3..], k) == Group24(bytes, k + 3);
  }

  lemma {:induction false} BodyLength(bytes: seq<Byte>)
    ensures |Body(bytes)| == (4 * |bytes| + 2) / 3
  {
    if |bytes| >= 3 {
      BodyLength(bytes[3..]);
    }
  }

  // Without its padding the text spells the bytes six bits at a time, in symbols that need no
  // escape in a URL.
  lemma SpellsTheBits(bytes: seq<Byte>)
    ensures var s := WithoutPadding(Print(bytes));
            && |s| == (4 * |bytes| + 2) / 3 && IsUrlSafe(s)
            && forall i :: 0 <= i < |s| ==> s[i] == Symbol(Sextet(bytes, i))
  {
    BodyIsPlain(bytes);
    PrintedIsPadded(bytes);
    StripPadding(Body(bytes), PadCount(|bytes|));
    BodyLength(bytes);
    var s := WithoutPadding(Print(bytes));
    forall i | 0 <= i < |s|
      ensures s[i] == Symbol(Sextet(bytes, i))
    {
      BodySpellsSextets(bytes, i);
    }
  }

  // --- what the reader overlooks ---------------------------------------------------------------

  // Symbols of this alphabet, the plain alphabet's two last ones, and padding.
  predicate IsKnown(c: char) {
    'A' <= c <= 'Z' || 'a' <= c <= 'z' || '0' <= c <= '9' || c in {'-', '_', '+', '/', '='}
  }

  function Cleaned(s: string): string {
    if s == "" then "" else (if IsKnown(s[0]) then [s[0]] else "") + Cleaned(s[1..])
  }

  // Any other character is skipped, wherever it stands.
  lemma {:induction false} StraysAreSkipped(s: string, at: nat, left: nat, pads: nat)
    requires at < 4 && (at == 1 ==> left < 64) && (at == 2 ==> left < 16) && (at == 3 ==> left < 4)
    ensures Scan(s, at, left, pads) == Scan(Cleaned(s), at, left, pads)
    decreases |s|
  {
    if s != "" {
      var rest := s[1..];
      if !IsKnown(s[0]) {
        StraysAreSkipped(rest, at, left, pads);
        assert Cleaned(s) == Cleaned(rest);
      } else {
        assert Cleaned(s)[0] == s[0] && Cleaned(s)[1..] == Cleaned(rest);
        if s[0] == '=' {
          StraysAreSkipped(rest, at, left, if at >= 2 then pads + 1 else pads);
        } else {
          StraysAreSkipped(rest, (at + 1) % 4, LeftOver(ValueOf(s[0]).value, at), 0);
        }
      }
    }
  }

  // The bits a symbol leaves over where it stands in its group.
  function LeftOver(v: nat, at: nat): nat
    requires at < 4
  {
    if at == 0 then v else if at == 1 then v % 16 else if at == 2 then v % 4 else 0
  }

  // The plain alphabet's symbols read as this one's, and padding before its place is overlooked.
  lemma PlainSymbolsReadAlike(rest: string, at: nat, left: nat, pads: nat)
    requires at < 4 && (at == 1 ==> left < 64) && (at == 2 ==> left < 16) && (at == 3 ==> left < 4)
    ensures Scan(['+'] + rest, at, left, pads) == Scan(['-'] + rest, at, left, pads)
    ensures Scan(['/'] + rest, at, left, pads) == Scan(['_'] + rest, at, left, pads)
    ensures at < 2 ==> Scan(['='] + rest, at, left, pads) == Scan(rest, at, left, pads)
  {
    assert (['+'] + rest)[1..] == (['-'] + rest)[1..] == (['/'] + rest)[1..] == (['_'] + rest)[1..] == rest;
    assert (['='] + rest)[1..] == rest;
  }
}

// UTF-8, as `str.encode` writes it and the strict decoder reads it.
module Utf8 {
  import opened Options
  import opened Division

  type Byte = n: nat | n < 256

  function EncodeChar(c: char): (bytes: seq<Byte>)
    ensures bytes != []
  {
    var n := c as int;
    if n < 0x80 then [n]
    else if n < 0x800 then [0xC0 + n / 64, 0x80 + n % 64]
    else if n < 0x1_0000 then [0xE0 + n / 4096, 0x80 + n / 64 % 64, 0x80 + n % 64]
    else [0xF0 + n / 262144, 0x80 + n / 4096 % 64, 0x80 + n / 64 % 64, 0x80 + n % 64]
  }

  function Encode(s: string): seq<Byte> {
    if s == "" then [] else EncodeChar(s[0]) + Encode(s[1..])
  }

  predicate IsContinuation(b: Byte) {
    0x80 <= b < 0xC0
  }

  // The six bits of a continuation byte.
  function Low(b: Byte): (n: nat)
    requires IsContinuation(b)
    ensures n < 64
  {
    b as int - 0x80
  }

  // The code point at the front, refusing stray, missing, overlong and surrogate forms.
  function DecodePoint(bytes: seq<Byte>): (point: Option<(char, nat)>)
    ensures point.Some? ==> 0 < point.value.1 <= |bytes|
  {
    if bytes == [] then None
    else
      var lead: int := bytes[0];
      var follow := Continuations(bytes);
      if lead < 0x80 then Some((lead as char, 1))
      else if 0xC2 <= lead < 0xE0 && follow >= 1 then
        Some((((lead - 0xC0) * 64 + Low(bytes[1])) as char, 2))
      else if 0xE0 <= lead < 0xF0 && follow >= 2 then
        var n := (lead - 0xE0) * 4096 + Low(bytes[1]) * 64 + Low(bytes[2]);
        if n < 0x800 || 0xD800 <= n < 0xE000 then None else Some((n as char, 3))
      else if 0xF0 <= lead < 0xF5 && follow >= 3 then
        var n := (lead - 0xF0) * 262144 + Low(bytes[1]) * 4096 + Low(bytes[2]) * 64 + Low(bytes[3]);
        if n < 0x1_0000 || n > 0x10_FFFF then None else Some((n as char, 4))
      else None
  }

  // How many continuation bytes follow the first, up to three.
  function Continuations(bytes: seq<Byte>): (k: nat)
    requires bytes != []
    ensures k < |bytes| && k <= 3 && forall i :: 1 <= i <= k ==> IsContinuation(bytes[i])
  {
    if |bytes| < 2 || !IsContinuation(bytes[1]) then 0
    else if |bytes| < 3 || !IsContinuation(bytes[2]) then 1
    else if |bytes| < 4 || !IsContinuation(bytes[3]) then 2
    else 3
  }

  function Decode(bytes: seq<Byte>): Option<string> {
    if bytes == [] then Some("")
    else
      var point := DecodePoint(bytes);
      if point.None? then None
      else
        var rest := Decode(bytes[point.value.1..]);
        if rest.None? then None else Some([point.value.0] + rest.value)
  }

  // What is encoded is read back, whatever follows it.
  lemma CharRoundTrip(c: char, rest: seq<Byte>)
    ensures DecodePoint(EncodeChar(c) + rest) == Some((c, |EncodeChar(c)|))
  {
    var n := c as int;
    var bytes := EncodeChar(c) + rest;
    assert forall i :: 0 <= i < |EncodeChar(c)| ==> bytes[i] == EncodeChar(c)[i];
    if n < 0x80 {
    } else if n < 0x800 {
      TwoBytes(c, bytes);
    } else if n < 0x1_0000 {
      ThreeBytes(c, bytes);
    } else {
      FourBytes(c, bytes);
    }
  }

  lemma TwoBytes(c: char, bytes: seq<Byte>)
    requires 0x80 <= c as int < 0x800 && |bytes| >= 2
    requires bytes[0] == 0xC0 + c as int / 64 && bytes[1] == 0x80 + c as int % 64
    ensures DecodePoint(bytes) == Some((c, 2))
  {
    assert Continuations(bytes) >= 1;
  }

  lemma ThreeBytes(c: char, bytes: seq<Byte>)
    requires 0x800 <= c as int < 0x1_0000 && |bytes| >= 3
    requires bytes[0] == 0xE0 + c as int / 4096 && bytes[1] == 0x80 + c as int / 64 % 64 && bytes[2] == 0x80 + c as int % 64
    ensures DecodePoint(bytes) == Some((c, 3))
  {
    var n := c as int;
    assert Continuations(bytes) >= 2;
    assert n == n / 4096 * 4096 + n / 64 % 64 * 64 + n % 64;
  }

  lemma FourBytes(c: char, bytes: seq<Byte>)
    requires 0x1_0000 <= c as int && |bytes| >= 4
    requires bytes[0] == 0xF0 + c as int / 262144 && bytes[1] == 0x80 + c as int / 4096 % 64
    requires bytes[2] == 0x80 + c as int / 64 % 64 && bytes[3] == 0x80 + c as int % 64
    ensures DecodePoint(bytes) == Some((c, 4))
  {
    var n := c as int;
    assert Continuations(bytes) == 3;
    assert n == n / 262144 * 262144 + n / 4096 % 64 * 4096 + n / 64 % 64 * 64 + n % 64;
  }

  lemma {:induction false} RoundTrip(s: string)
    ensures Decode(Encode(s)) == Some(s)
  {
    if s != "" {
      CharRoundTrip(s[0], Encode(s[1..]));
      var bytes := Encode(s);
      assert bytes[|EncodeChar(s[0])|..] == Encode(s[1..]);
      RoundTrip(s[1..]);
      assert s == [s[0]] + s[1..];
    }
  }

  // --- what is written -------------------------------------------------------------------------

  // As many bytes as the code point needs (section 3 of RFC 3629), its bits spread over them.
  lemma PointIsSpelled(c: char)
    ensures var b, n := EncodeChar(c), c as int;
            && (|b| == 1 <==> n < 0x80) && (|b| == 2 <==> 0x80 <= n < 0x800)
            && (|b| == 3 <==> 0x800 <= n < 0x1_0000) && (|b| == 4 <==> 0x1_0000 <= n)
            && (forall i :: 1 <= i < |b| ==> IsContinuation(b[i]))
            && (|b| == 1 ==> n == b[0])
            && (|b| == 2 ==> 0xC0 <= b[0] < 0xE0 && n == (b[0] - 0xC0) * 0x40 + Low(b[1]))
            && (|b| == 3 ==> 0xE0 <= b[0] < 0xF0 && n == (b[0] - 0xE0) * 0x1000 + Low(b[1]) * 0x40 + Low(b[2]))
            && (|b| == 4 ==>
                  0xF0 <= b[0] < 0xF8
                  && n == (b[0] - 0xF0) * 0x4_0000 + Low(b[1]) * 0x1000 + Low(b[2]) * 0x40 + Low(b[3]))
  {
    var n := c as int;
    assert n / 4096 * 64 + n / 64 % 64 == n / 64;
    assert n / 262144 * 64 + n / 4096 % 64 == n / 4096;
  }

  lemma {:induction false} EncodeOfSum(s: string, t: string)
    ensures Encode(s + t) == Encode(s) + Encode(t)
  {
    if s == "" {
      assert s + t == t;
    } else {
      assert (s + t)[1..] == s[1..] + t;
      EncodeOfSum(s[1..], t);
    }
  }

  lemma EncodeOne(c: char)
    ensures Encode([c]) == EncodeChar(c)
  {
    assert [c][1..] == "";
  }

  // --- what is accepted --------------------------------------------------------------------------

  lemma PointIsEncoded(bytes: seq<Byte>)
    requires DecodePoint(bytes).Some?
    ensures var (c, k) := DecodePoint(bytes).value; bytes[..k] == EncodeChar(c)
  {
    var lead: int := bytes[0];
    var k := DecodePoint(bytes).value.1;
    if k == 2 {
      Divides((lead - 0xC0) * 64 + Low(bytes[1]), 64, lead - 0xC0, Low(bytes[1]));
    } else if k == 3 {
      ThreeRead(lead - 0xE0, Low(bytes[1]), Low(bytes[2]));
    } else if k == 4 {
      FourRead(lead - 0xF0, Low(bytes[1]), Low(bytes[2]), Low(bytes[3]));
    }
  }

  lemma ThreeRead(a: nat, b: nat, c: nat)
    requires b < 64 && c < 64
    ensures var n := a * 4096 + b * 64 + c; n / 4096 == a && n / 64 % 64 == b && n % 64 == c
  {
    var n := a * 4096 + b * 64 + c;
    Divides(n, 64, a * 64 + b, c);
    Divides(a * 64 + b, 64, a, b);
    Divides(n, 4096, a, b * 64 + c);
  }

  lemma FourRead(a: nat, b: nat, c: nat, d: nat)
    requires b < 64 && c < 64 && d < 64
    ensures var n := a * 262144 + b * 4096 + c * 64 + d;
            n / 262144 == a && n / 4096 % 64 == b && n / 64 % 64 == c && n % 64 == d
  {
    var n := a * 262144 + b * 4096 + c * 64 + d;
    Divides(n, 64, a * 4096 + b * 64 + c, d);
    ThreeRead(a, b, c);
    Divides(n, 4096, a * 64 + b, c * 64 + d);
    Divides(a * 64 + b, 64, a, b);
    Divides(n, 262144, a, b * 4096 + c * 64 + d);
  }

  // The strict decoder accepts exactly what the encoder writes: no overlong form, no surrogate,
  // nothing cut short.
  lemma AcceptsExactly(bytes: seq<Byte>, s: string)
    ensures Decode(bytes) == Some(s) <==> bytes == Encode(s)
  {
    RoundTrip(s);
    if Decode(bytes) == Some(s) {
      DecodedWasEncoded(bytes, s);
    }
  }

  lemma DecodesPointFirst(bytes: seq<Byte>, s: string) returns (c: char, tail: seq<Byte>, rest: string)
    requires bytes != [] && Decode(bytes) == Some(s)
    ensures bytes == EncodeChar(c) + tail && |tail| < |bytes|
    ensures Decode(tail) == Some(rest) && s == [c] + rest
  {
    PointIsEncoded(bytes);
    var k := DecodePoint(bytes).value.1;
    c, tail := DecodePoint(bytes).value.0, bytes[k..];
    rest := Decode(tail).value;
    assert bytes == bytes[..k] + bytes[k..];
  }

  lemma EncodeOneMore(c: char, rest: string)
    ensures Encode([c] + rest) == EncodeChar(c) + Encode(rest)
  {
    EncodeOfSum([c], rest);
    EncodeOne(c);
  }

  lemma {:induction false} DecodedWasEncoded(bytes: seq<Byte>, s: string)
    requires Decode(bytes) == Some(s)
    ensures bytes == Encode(s)
    decreases |bytes|
  {
    if bytes != [] {
      var c, tail, rest := DecodesPointFirst(bytes, s);
      DecodedWasEncoded(tail, rest);
      EncodeOneMore(c, rest);
    }
  }
}

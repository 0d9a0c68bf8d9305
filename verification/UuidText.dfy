// A UUID's canonical text, and why sorting the text sorts the ids.
module UuidText {
  import Cursor
  import opened Division

  function HexDigit(d: nat): (c: char)
    requires d < 16
    ensures c != Cursor.SEPARATOR
  {
    if d < 10 then (48 + d) as char else (97 + d - 10) as char
  }

  // `width` hexadecimal digits, most significant first.
  function Hex(n: nat, width: nat): (s: string)
    ensures |s| == width
  {
    if width == 0 then "" else Hex(n / 16, width - 1) + [HexDigit(n % 16)]
  }

  function Pow16(k: nat): (p: nat)
    ensures p > 0
  {
    if k == 0 then 1 else 16 * Pow16(k - 1)
  }

  // The five groups of the text: 8, 4, 4, 4 and 12 digits.
  datatype Groups = Groups(a: nat, b: nat, c: nat, d: nat, e: nat)

  function GroupsOf(id: nat): Groups {
    Groups(
      id / 0x1_0000_0000_0000_0000_0000_0000,
      id / 0x1_0000_0000_0000_0000_0000 % 0x1_0000,
      id / 0x1_0000_0000_0000_0000 % 0x1_0000,
      id / 0x1_0000_0000_0000 % 0x1_0000,
      id % 0x1_0000_0000_0000)
  }

  function TextOf(g: Groups): string {
    Hex(g.a, 8) + ("-" + (Hex(g.b, 4) + ("-" + (Hex(g.c, 4) + ("-" + (Hex(g.d, 4) + ("-" + Hex(g.e, 12))))))))
  }

  // `str(uuid)`.
  function Text(id: nat): string {
    TextOf(GroupsOf(id))
  }

  // Character by character, as strings are sorted.
  predicate Less(s: string, t: string) {
    t != "" && (s == "" || s[0] < t[0] || (s[0] == t[0] && Less(s[1..], t[1..])))
  }

  lemma {:induction false} LessOfSum(a: string, b: string, s: string, t: string)
    requires |a| == |b|
    ensures Less(a + s, b + t) <==> Less(a, b) || (a == b && Less(s, t))
  {
    if a == "" {
      assert a + s == s && b + t == t;
    } else {
      assert (a + s)[1..] == a[1..] + s && (b + t)[1..] == b[1..] + t;
      LessOfSum(a[1..], b[1..], s, t);
      assert a == [a[0]] + a[1..] && b == [b[0]] + b[1..];
    }
  }

  // Of numbers that fit, the text of the smaller sorts first.
  lemma {:induction false} HexKeepsOrder(m: nat, n: nat, width: nat)
    requires m < Pow16(width) && n < Pow16(width)
    ensures Less(Hex(m, width), Hex(n, width)) <==> m < n
    ensures Hex(m, width) == Hex(n, width) <==> m == n
  {
    if width > 0 {
      HexKeepsOrder(m / 16, n / 16, width - 1);
      var a, b := [HexDigit(m % 16)], [HexDigit(n % 16)];
      LessOfSum(Hex(m / 16, width - 1), Hex(n / 16, width - 1), a, b);
      assert Less(a, b) <==> m % 16 < n % 16;
      LastSettles(Hex(m / 16, width - 1), Hex(n / 16, width - 1), HexDigit(m % 16), HexDigit(n % 16));
    }
  }

  lemma LastSettles(a: string, b: string, x: char, y: char)
    requires |a| == |b|
    ensures a + [x] == b + [y] <==> a == b && x == y
  {
    assert a == (a + [x])[..|a|] && b == (b + [y])[..|b|];
    assert (a + [x])[|a|] == x && (b + [y])[|b|] == y;
  }

  predicate Fits(g: Groups) {
    g.a < Pow16(8) && g.b < Pow16(4) && g.c < Pow16(4) && g.d < Pow16(4) && g.e < Pow16(12)
  }

  // The order of the groups, first to last.
  predicate GroupsLess(g: Groups, h: Groups) {
    || g.a < h.a
    || (g.a == h.a && (|| g.b < h.b
                       || (g.b == h.b && (|| g.c < h.c
                                          || (g.c == h.c && (g.d < h.d || (g.d == h.d && g.e < h.e)))))))
  }

  lemma GroupThen(m: nat, n: nat, width: nat, s: string, t: string)
    requires m < Pow16(width) && n < Pow16(width)
    ensures Less(Hex(m, width) + ("-" + s), Hex(n, width) + ("-" + t)) <==> m < n || (m == n && Less(s, t))
  {
    HexKeepsOrder(m, n, width);
    LessOfSum(Hex(m, width), Hex(n, width), "-" + s, "-" + t);
    LessOfSum("-", "-", s, t);
  }

  lemma TextKeepsGroups(g: Groups, h: Groups)
    requires Fits(g) && Fits(h)
    ensures Less(TextOf(g), TextOf(h)) <==> GroupsLess(g, h)
  {
    var e, e' := Hex(g.e, 12), Hex(h.e, 12);
    var d, d' := Hex(g.d, 4) + ("-" + e), Hex(h.d, 4) + ("-" + e');
    var c, c' := Hex(g.c, 4) + ("-" + d), Hex(h.c, 4) + ("-" + d');
    var b, b' := Hex(g.b, 4) + ("-" + c), Hex(h.b, 4) + ("-" + c');
    HexKeepsOrder(g.e, h.e, 12);
    GroupThen(g.d, h.d, 4, e, e');
    GroupThen(g.c, h.c, 4, d, d');
    GroupThen(g.b, h.b, 4, c, c');
    GroupThen(g.a, h.a, 8, b, b');
  }

  lemma WidthsFit()
    ensures Pow16(4) == 0x1_0000 && Pow16(8) == 0x1_0000_0000 && Pow16(12) == 0x1_0000_0000_0000
  {
    assert Pow16(2) == 256;
    assert Pow16(4) == 256 * 256;
    assert Pow16(6) == 256 * 256 * 256;
    assert Pow16(8) == 256 * 256 * 256 * 256;
    assert Pow16(10) == 256 * 256 * 256 * 256 * 256;
  }

  lemma GroupsFit(id: nat)
    requires id < 0x1_0000_0000_0000_0000_0000_0000_0000_0000
    ensures Fits(GroupsOf(id))
  {
    WidthsFit();
  }

  function FromGroups(g: Groups): nat {
    (((g.a * 0x1_0000 + g.b) * 0x1_0000 + g.c) * 0x1_0000 + g.d) * 0x1_0000_0000_0000 + g.e
  }

  lemma DivAgain(id: nat, k: nat, j: nat)
    requires k > 0 && j > 0
    ensures id / (k * j) == id / k / j
  {
    var q, r := id / k, id % k;
    var a, b := q / j, q % j;
    assert q == a * j + b && id == q * k + r;
    Distribute(a, j, b, k);
    MulMonotone(b, j, k);
    Commute(j, k);
    Divides(id, k * j, a, b * k + r);
  }

  lemma Distribute(a: nat, j: nat, b: nat, k: nat)
    ensures (a * j + b) * k == a * (k * j) + b * k
  {
    assert (a * j + b) * k == a * j * k + b * k;
    assert a * j * k == a * (k * j);
  }

  lemma Commute(j: nat, k: nat)
    ensures j * k == k * j
  {
  }

  lemma GroupsMakeId(id: nat)
    ensures FromGroups(GroupsOf(id)) == id
  {
    DivAgain(id, 0x1_0000_0000_0000, 0x1_0000);
    DivAgain(id, 0x1_0000_0000_0000_0000, 0x1_0000);
    DivAgain(id, 0x1_0000_0000_0000_0000_0000, 0x1_0000);
  }

  // Ids in order of time are texts in order of characters: in fixed-length lower-case
  // hexadecimal the two agree.
  lemma TextKeepsOrder(a: nat, b: nat)
    requires a < 0x1_0000_0000_0000_0000_0000_0000_0000_0000 && b < 0x1_0000_0000_0000_0000_0000_0000_0000_0000
    ensures Less(Text(a), Text(b)) <==> a < b
  {
    GroupsFit(a);
    GroupsFit(b);
    TextKeepsGroups(GroupsOf(a), GroupsOf(b));
    GroupsMakeId(a);
    GroupsMakeId(b);
    WidthsFit();
    GroupsOrder(GroupsOf(a), GroupsOf(b));
  }

  lemma {:induction false} NotLessThanItself(s: string)
    ensures !Less(s, s)
  {
    if s != "" {
      NotLessThanItself(s[1..]);
    }
  }

  // No two ids share a text.
  lemma TextSettles(a: nat, b: nat)
    requires a < 0x1_0000_0000_0000_0000_0000_0000_0000_0000 && b < 0x1_0000_0000_0000_0000_0000_0000_0000_0000
    requires Text(a) == Text(b)
    ensures a == b
  {
    TextKeepsOrder(a, b);
    TextKeepsOrder(b, a);
    NotLessThanItself(Text(a));
  }

  lemma GroupsOrder(g: Groups, h: Groups)
    requires g.b < 0x1_0000 && g.c < 0x1_0000 && g.d < 0x1_0000 && g.e < 0x1_0000_0000_0000
    requires h.b < 0x1_0000 && h.c < 0x1_0000 && h.d < 0x1_0000 && h.e < 0x1_0000_0000_0000
    ensures GroupsLess(g, h) <==> FromGroups(g) < FromGroups(h)
  {
  }

  lemma {:induction false} HexHasNoSeparator(n: nat, width: nat)
    ensures forall i :: 0 <= i < width ==> Hex(n, width)[i] != Cursor.SEPARATOR
  {
    if width > 0 {
      HexHasNoSeparator(n / 16, width - 1);
    }
  }

  lemma NoSeparatorInSum(s: string, t: string)
    requires !Cursor.HasSeparator(s) && !Cursor.HasSeparator(t)
    ensures !Cursor.HasSeparator(s + ("-" + t))
  {
    var whole := s + ("-" + t);
    forall i | 0 <= i < |whole|
      ensures whole[i] != Cursor.SEPARATOR
    {
      assert whole[i] == if i < |s| then s[i] else if i == |s| then '-' else t[i - |s| - 1];
    }
  }

  // A UUID's text is one part of a cursor.
  lemma TextHasNoSeparator(id: nat)
    ensures !Cursor.HasSeparator(Text(id))
  {
    var g := GroupsOf(id);
    HexHasNoSeparator(g.a, 8);
    HexHasNoSeparator(g.b, 4);
    HexHasNoSeparator(g.c, 4);
    HexHasNoSeparator(g.d, 4);
    HexHasNoSeparator(g.e, 12);
    NoSeparatorInSum(Hex(g.d, 4), Hex(g.e, 12));
    NoSeparatorInSum(Hex(g.c, 4), Hex(g.d, 4) + ("-" + Hex(g.e, 12)));
    NoSeparatorInSum(Hex(g.b, 4), Hex(g.c, 4) + ("-" + (Hex(g.d, 4) + ("-" + Hex(g.e, 12)))));
    NoSeparatorInSum(Hex(g.a, 8), Hex(g.b, 4) + ("-" + (Hex(g.c, 4) + ("-" + (Hex(g.d, 4) + ("-" + Hex(g.e, 12)))))));
  }

  // --- its form -------------------------------------------------------------------------------

  predicate IsHex(s: string) {
    forall i :: 0 <= i < |s| ==> '0' <= s[i] <= '9' || 'a' <= s[i] <= 'f'
  }

  lemma {:induction false} HexIsHex(n: nat, width: nat)
    ensures IsHex(Hex(n, width))
  {
    if width > 0 {
      HexIsHex(n / 16, width - 1);
    }
  }

  // Eight, four, four, four and twelve lower-case digits, a hyphen between them. As there are no
  // more such texts than ids, this and their order make the text of every id what it is.
  lemma TextIsCanonical(id: nat)
    ensures var s := Text(id);
            && |s| == 36 && s[8] == '-' && s[13] == '-' && s[18] == '-' && s[23] == '-'
            && IsHex(s[..8]) && IsHex(s[9..13]) && IsHex(s[14..18]) && IsHex(s[19..23]) && IsHex(s[24..])
  {
    var g := GroupsOf(id);
    HexIsHex(g.a, 8);
    HexIsHex(g.b, 4);
    HexIsHex(g.c, 4);
    HexIsHex(g.d, 4);
    HexIsHex(g.e, 12);
    FiveGroups(Hex(g.a, 8), Hex(g.b, 4), Hex(g.c, 4), Hex(g.d, 4), Hex(g.e, 12));
  }

  lemma FiveGroups(a: string, b: string, c: string, d: string, e: string)
    requires |a| == 8 && |b| == |c| == |d| == 4 && |e| == 12
    ensures var s := a + ("-" + (b + ("-" + (c + ("-" + (d + ("-" + e)))))));
            && |s| == 36 && s[8] == '-' && s[13] == '-' && s[18] == '-' && s[23] == '-'
            && s[..8] == a && s[9..13] == b && s[14..18] == c && s[19..23] == d && s[24..] == e
  {
    var s3 := d + ("-" + e);
    assert s3[..4] == d && s3[4] == '-' && s3[5..] == e;
    var s2 := c + ("-" + s3);
    assert s2[..4] == c && s2[4] == '-' && s2[5..] == s3;
    var s1 := b + ("-" + s2);
    assert s1[..4] == b && s1[4] == '-' && s1[5..] == s2;
    var s := a + ("-" + s1);
    assert s[..8] == a && s[8] == '-' && s[9..] == s1;
    assert s[14..] == s2 && s[19..] == s3;
  }
}
